/** What a turn produces, read off its frames by index: which frames are its own, the text they
    add up to, the tools they start, and the frame that ends it. */
module OmoTranscript {
  import opened Common
  import opened OmoTurn
  import opened OmoTurnLaws

  // ---------------------------------------------------------------------
  // Whose frames they are.
  // ---------------------------------------------------------------------

  /** The turn id that the first `n` frames have acknowledged: that of the first response to
      `turn/start`. */
  function Ack(fs: seq<Arrival>, n: nat): Option<string>
    requires n <= |fs|
  {
    if n == 0 then None
    else if Ack(fs, n - 1).None? && fs[n - 1].frame.verb.NoMethod? && fs[n - 1].frame.id == Number(3)
    then fs[n - 1].frame.resultTurnId.AsStr()
    else Ack(fs, n - 1)
  }

  predicate IsStartReply(fs: seq<Arrival>, i: nat) {
    i < |fs| && Ack(fs, i).None? && fs[i].frame.verb.NoMethod? && fs[i].frame.id == Number(3)
  }

  /** Frame `i` carries the thread and the acknowledged turn. */
  predicate IsOwn(c: Session, fs: seq<Arrival>, i: nat) {
    i < |fs| && Ack(fs, i).Some? && fs[i].frame.threadId == Str(c.threadId) && fs[i].frame.TurnId() == Ack(fs, i)
  }

  // ---------------------------------------------------------------------
  // Tools.
  // ---------------------------------------------------------------------

  predicate Starts(c: Session, fs: seq<Arrival>, i: nat, id: string) {
    && IsOwn(c, fs, i) && fs[i].frame.verb.ItemStarted?
    && fs[i].frame.item.Some? && fs[i].frame.item.value.id == Str(id) && id != ""
  }

  /** The id of the item that frame `i` starts; empty if it starts none. */
  function StartedId(c: Session, fs: seq<Arrival>, i: nat): string {
    if IsOwn(c, fs, i) && fs[i].frame.verb.ItemStarted? && fs[i].frame.item.Some? then fs[i].frame.item.value.id.OrEmpty() else ""
  }

  /** Frame `i` is the first to start its item. */
  ghost predicate IsFirstStart(c: Session, fs: seq<Arrival>, i: nat) {
    && i < |fs| && Starts(c, fs, i, StartedId(c, fs, i))
    && forall k :: 0 <= k < i ==> !Starts(c, fs, k, StartedId(c, fs, i))
  }

  ghost predicate IsToolStart(c: Session, fs: seq<Arrival>, i: nat) {
    IsFirstStart(c, fs, i) && fs[i].frame.item.value.kind.Tool?
  }

  /** The first `n` frames that start a tool. */
  ghost function ToolStarts(c: Session, fs: seq<Arrival>, n: nat): set<nat> {
    set i: nat | i < n && IsToolStart(c, fs, i)
  }

  ghost predicate IsToolStartOf(c: Session, fs: seq<Arrival>, i: nat, name: string) {
    IsToolStart(c, fs, i) && ToolName(fs[i].frame.item.value) == name
  }

  ghost function ToolStartsOf(c: Session, fs: seq<Arrival>, n: nat, name: string): set<nat> {
    set i: nat | i < n && IsToolStartOf(c, fs, i, name)
  }

  /** Every tool name with the number of its starts. */
  ghost predicate AreCounts(c: Session, fs: seq<Arrival>, n: nat, counts: map<string, nat>) {
    forall name :: |ToolStartsOf(c, fs, n, name)| == if name in counts then counts[name] else 0
  }

  // ---------------------------------------------------------------------
  // Text.
  // ---------------------------------------------------------------------

  predicate IsDelta(c: Session, fs: seq<Arrival>, i: nat) {
    IsOwn(c, fs, i) && fs[i].frame.verb.AgentDelta? && fs[i].frame.delta.Str? && fs[i].frame.delta.s != ""
  }

  /** A completed agent message supplies the whole text anew. */
  predicate IsReply(c: Session, fs: seq<Arrival>, i: nat) {
    && IsOwn(c, fs, i) && fs[i].frame.verb.ItemCompleted?
    && fs[i].frame.item.Some? && fs[i].frame.item.value.kind.AgentMessage? && fs[i].frame.item.value.text.Str?
  }

  /** An agent message that starts after a tool begins the text anew. */
  ghost predicate IsRestart(c: Session, fs: seq<Arrival>, i: nat) {
    IsFirstStart(c, fs, i) && fs[i].frame.item.value.kind.AgentMessage? && ToolStarts(c, fs, i) != {}
  }

  ghost predicate IsReset(c: Session, fs: seq<Arrival>, i: nat) {
    IsReply(c, fs, i) || IsRestart(c, fs, i)
  }

  function ResetText(fs: seq<Arrival>, i: nat): string
    requires i < |fs|
  {
    if fs[i].frame.verb.ItemCompleted? && fs[i].frame.item.Some? then fs[i].frame.item.value.text.OrEmpty() else ""
  }

  /** The turn's own deltas from frame `from` up to frame `n`, one after the other. */
  function Deltas(c: Session, fs: seq<Arrival>, from: nat, n: nat): string
    requires n <= |fs|
    decreases n
  {
    if from >= n then ""
    else Deltas(c, fs, from, n - 1) + if IsDelta(c, fs, n - 1) then fs[n - 1].frame.delta.s else ""
  }

  ghost predicate NoResetFrom(c: Session, fs: seq<Arrival>, from: nat, n: nat) {
    forall k: nat :: from <= k < n ==> !IsReset(c, fs, k)
  }

  /** `text` is what the last reset supplies and the deltas after it, or all deltas if there was
      no reset. */
  ghost predicate IsContent(c: Session, fs: seq<Arrival>, n: nat, text: string)
    requires n <= |fs|
  {
    || (NoResetFrom(c, fs, 0, n) && text == Deltas(c, fs, 0, n))
    || exists r: nat :: IsLastReset(c, fs, r, n) && text == ResetText(fs, r) + Deltas(c, fs, r + 1, n)
  }

  ghost predicate IsLastReset(c: Session, fs: seq<Arrival>, r: nat, n: nat) {
    r < n <= |fs| && IsReset(c, fs, r) && NoResetFrom(c, fs, r + 1, n)
  }

  // ---------------------------------------------------------------------
  // Denied approvals.
  // ---------------------------------------------------------------------

  predicate IsDenied(c: Session, fs: seq<Arrival>, i: nat) {
    && i < |fs| && IsApproval(fs[i].frame)
    && !(c.allowsTerminal == Some(false) && (Contains(fs[i].frame.verb.name, "commandExecution") || fs[i].frame.namesCommand))
    && !c.yolo && !c.autoApprove
  }

  predicate IsProgress(c: Session, fs: seq<Arrival>, i: nat) {
    && IsOwn(c, fs, i)
    && (fs[i].frame.verb.TurnStarted? || fs[i].frame.verb.ItemStarted? || fs[i].frame.verb.ItemCompleted?)
  }

  /** The denials among the first `n` frames since the turn last made progress. */
  ghost function Denials(c: Session, fs: seq<Arrival>, n: nat): set<nat> {
    set i: nat | i < n && IsDenied(c, fs, i) && NoProgressBetween(c, fs, i, n)
  }

  ghost predicate NoProgressBetween(c: Session, fs: seq<Arrival>, i: nat, n: nat) {
    forall k: nat :: i < k < n ==> !IsProgress(c, fs, k)
  }

  // ---------------------------------------------------------------------
  // The end.
  // ---------------------------------------------------------------------

  predicate IsFinished(c: Session, fs: seq<Arrival>, i: nat, status: Status) {
    IsOwn(c, fs, i) && fs[i].frame.verb.TurnCompleted? && fs[i].frame.status == status
  }

  predicate IsOwnError(c: Session, fs: seq<Arrival>, i: nat) {
    && IsOwn(c, fs, i)
    && (|| fs[i].frame.verb.TurnErrorNote?
        || (fs[i].frame.verb.ErrorNote? && (!fs[i].frame.turnIdField.Absent? || fs[i].frame.hasTurn)))
  }

  /** How a completed turn with the text `text` ends, if frame `i` completes it. */
  predicate CompletesWith(c: Session, at: Instant, text: string, usedTools: bool, end: End) {
    var shown := c.scrub(text);
    var cut := Contains(text, "[output interrupted by stream rule]");
    match end
    case StreamRule => cut
    case Silent => !cut && c.isSilence(shown)
    case NoContent => !cut && !c.isSilence(shown) && shown == "" && !usedTools && at - c.startedAt >= c.noContentGrace
    case Delivered => !cut && !c.isSilence(shown) && (shown != "" || usedTools)
    case _ => false
  }

  /** Frame `i`, coming when the text is `text`, ends the turn with `end`. */
  ghost predicate EndsWith(c: Session, fs: seq<Arrival>, i: nat, text: string, end: End)
    requires i < |fs|
  {
    match end
    case StartRejected => IsStartReply(fs, i) && fs[i].frame.hasError
    case MissingTurnId => IsStartReply(fs, i) && !fs[i].frame.hasError && fs[i].frame.resultTurnId.OrEmpty() == ""
    case DenialLoop => IsDenied(c, fs, i) && |Denials(c, fs, i + 1)| >= 5
    case TurnError => IsOwnError(c, fs, i)
    case TurnInterrupted => IsFinished(c, fs, i, Interrupted)
    case TurnFailed => IsFinished(c, fs, i, Failed)
    case _ => IsFinished(c, fs, i, Completed) && CompletesWith(c, fs[i].at, text, ToolStarts(c, fs, i) != {}, end)
  }

  lemma OneCompletion(c: Session, at: Instant, text: string, usedTools: bool, e: End, e': End)
    requires CompletesWith(c, at, text, usedTools, e) && CompletesWith(c, at, text, usedTools, e')
    ensures e == e'
  {
  }

  lemma EndKind(c: Session, fs: seq<Arrival>, i: nat, text: string, e: End)
    requires i < |fs| && EndsWith(c, fs, i, text, e)
    ensures (e.StartRejected? || e.MissingTurnId?) <==> fs[i].frame.verb.NoMethod?
    ensures e.DenialLoop? <==> fs[i].frame.verb.Other?
    ensures e.TurnError? <==> fs[i].frame.verb.TurnErrorNote? || fs[i].frame.verb.ErrorNote?
    ensures fs[i].frame.verb.TurnCompleted? ==>
              if fs[i].frame.status.Interrupted? then e.TurnInterrupted?
              else if fs[i].frame.status.Failed? then e.TurnFailed?
              else CompletesWith(c, fs[i].at, text, ToolStarts(c, fs, i) != {}, e)
    ensures fs[i].frame.verb.NoMethod? || fs[i].frame.verb.Other? || fs[i].frame.verb.TurnErrorNote?
            || fs[i].frame.verb.ErrorNote? || fs[i].frame.verb.TurnCompleted?
  {
  }

  /** A frame ends a turn in one way only. */
  lemma OneEnd(c: Session, fs: seq<Arrival>, i: nat, text: string, e: End, e': End)
    requires i < |fs| && EndsWith(c, fs, i, text, e) && EndsWith(c, fs, i, text, e')
    ensures e == e'
  {
    EndKind(c, fs, i, text, e);
    EndKind(c, fs, i, text, e');
    if fs[i].frame.verb.TurnCompleted? {
      if !fs[i].frame.status.Interrupted? && !fs[i].frame.status.Failed? {
        OneCompletion(c, fs[i].at, text, ToolStarts(c, fs, i) != {}, e, e');
      }
    } else if fs[i].frame.verb.NoMethod? {
      assert e.StartRejected? <==> fs[i].frame.hasError;
    }
  }

  /** Frame `i` is the first that ends the turn. */
  ghost predicate IsEnd(c: Session, fs: seq<Arrival>, i: nat, text: string, end: End) {
    && i < |fs| && IsContent(c, fs, i, text) && EndsWith(c, fs, i, text, end)
    && forall k: nat :: k < i ==> GoesOn(c, fs, k)
  }

  ghost predicate GoesOn(c: Session, fs: seq<Arrival>, k: nat) {
    k < |fs| && forall text, end :: IsContent(c, fs, k, text) ==> !EndsWith(c, fs, k, text, end)
  }

  // ---------------------------------------------------------------------
  // Chunks.
  // ---------------------------------------------------------------------

  ghost predicate IsEmission(c: Session, fs: seq<Arrival>, i: nat) {
    (IsDelta(c, fs, i) && !c.suppressEmission) || (IsToolStart(c, fs, i) && !c.isCron)
  }

  ghost function Emissions(c: Session, fs: seq<Arrival>, n: nat): set<nat> {
    set i: nat | i < n && IsEmission(c, fs, i)
  }

  /** What is shown at frame `i`: the text so far, or the tools so far. */
  ghost predicate Shows(c: Session, fs: seq<Arrival>, i: nat, shown: string)
    requires i < |fs|
  {
    if IsDelta(c, fs, i) then IsContent(c, fs, i + 1, shown)
    else ShowsTools(c, fs, i + 1, shown)
  }

  ghost predicate ShowsTools(c: Session, fs: seq<Arrival>, n: nat, shown: string) {
    exists counts :: AreCounts(c, fs, n, counts) && shown == c.progress(|ToolStarts(c, fs, n)|, counts)
  }

  /** One chunk per emission, in order, none of them final. */
  ghost predicate AreChunks(c: Session, fs: seq<Arrival>, n: nat, chunks: seq<Chunk>)
    requires n <= |fs|
  {
    && |chunks| == |Emissions(c, fs, n)|
    && forall i: nat :: i < n && IsEmission(c, fs, i) ==> IsChunkOf(c, fs, i, chunks)
  }

  ghost predicate IsChunkOf(c: Session, fs: seq<Arrival>, i: nat, chunks: seq<Chunk>)
    requires i < |fs|
  {
    var k := |Emissions(c, fs, i)|;
    k < |chunks| && chunks[k].sequence == k && !chunks[k].isFinal && Shows(c, fs, i, chunks[k].content)
  }

  // ---------------------------------------------------------------------
  // The state of the loop in these terms.
  // ---------------------------------------------------------------------

  /** After `n` frames, none of which ended the turn. */
  ghost predicate Describes(c: Session, fs: seq<Arrival>, n: nat, st: State)
    requires n <= |fs|
  {
    && st.turnId == Ack(fs, n) && st.turnId != Some("")
    && IsContent(c, fs, n, st.content)
    && (forall id :: id in st.startedIds <==> exists k: nat :: k < n && Starts(c, fs, k, id))
    && st.toolCalls == |ToolStarts(c, fs, n)|
    && AreCounts(c, fs, n, st.toolCounts)
    && st.denials == |Denials(c, fs, n)|
    && AreChunks(c, fs, n, st.chunks)
  }

  // ---------------------------------------------------------------------
  // One frame more: the sets and the text.
  // ---------------------------------------------------------------------

  lemma ToolStartsStep(c: Session, fs: seq<Arrival>, n: nat)
    ensures ToolStarts(c, fs, n + 1) == ToolStarts(c, fs, n) + if IsToolStart(c, fs, n) then {n} else {}
    ensures |ToolStarts(c, fs, n + 1)| == |ToolStarts(c, fs, n)| + if IsToolStart(c, fs, n) then 1 else 0
  {
    assert n !in ToolStarts(c, fs, n);
  }

  lemma ToolStartsOfStep(c: Session, fs: seq<Arrival>, n: nat, name: string)
    ensures |ToolStartsOf(c, fs, n + 1, name)| == |ToolStartsOf(c, fs, n, name)| + if IsToolStartOf(c, fs, n, name) then 1 else 0
  {
    var here: set<nat> := if IsToolStartOf(c, fs, n, name) then {n} else {};
    assert ToolStartsOf(c, fs, n + 1, name) == ToolStartsOf(c, fs, n, name) + here;
    assert n !in ToolStartsOf(c, fs, n, name);
  }

  lemma CountsStep(c: Session, fs: seq<Arrival>, n: nat, counts: map<string, nat>)
    requires AreCounts(c, fs, n, counts)
    ensures AreCounts(c, fs, n + 1,
                      if IsToolStart(c, fs, n) then Increment(counts, ToolName(fs[n].frame.item.value)) else counts)
  {
    var counts' := if IsToolStart(c, fs, n) then Increment(counts, ToolName(fs[n].frame.item.value)) else counts;
    forall name ensures |ToolStartsOf(c, fs, n + 1, name)| == if name in counts' then counts'[name] else 0 {
      ToolStartsOfStep(c, fs, n, name);
      assert |ToolStartsOf(c, fs, n, name)| == if name in counts then counts[name] else 0;
    }
  }

  lemma EmissionsStep(c: Session, fs: seq<Arrival>, n: nat)
    ensures |Emissions(c, fs, n + 1)| == |Emissions(c, fs, n)| + if IsEmission(c, fs, n) then 1 else 0
  {
    var here: set<nat> := if IsEmission(c, fs, n) then {n} else {};
    assert Emissions(c, fs, n + 1) == Emissions(c, fs, n) + here;
    assert n !in Emissions(c, fs, n);
  }

  lemma DenialsAfterProgress(c: Session, fs: seq<Arrival>, n: nat)
    requires IsProgress(c, fs, n)
    ensures Denials(c, fs, n + 1) == if IsDenied(c, fs, n) then {n} else {}
  {
    var m := n + 1;
    forall i: nat | i < n ensures !NoProgressBetween(c, fs, i, m) {}
  }

  lemma DenialsGrow(c: Session, fs: seq<Arrival>, n: nat)
    requires !IsProgress(c, fs, n)
    ensures Denials(c, fs, n + 1) == Denials(c, fs, n) + if IsDenied(c, fs, n) then {n} else {}
  {
    forall i: nat | i < n ensures NoProgressBetween(c, fs, i, n + 1) <==> NoProgressBetween(c, fs, i, n) {}
  }

  lemma DenialsStep(c: Session, fs: seq<Arrival>, n: nat)
    ensures |Denials(c, fs, n + 1)| ==
              if IsProgress(c, fs, n) then (if IsDenied(c, fs, n) then 1 else 0)
              else |Denials(c, fs, n)| + if IsDenied(c, fs, n) then 1 else 0
  {
    if IsProgress(c, fs, n) {
      DenialsAfterProgress(c, fs, n);
    } else {
      DenialsGrow(c, fs, n);
      assert n !in Denials(c, fs, n);
    }
  }

  /** The text after one frame more. */
  lemma ContentStep(c: Session, fs: seq<Arrival>, n: nat, text: string)
    requires n < |fs| && IsContent(c, fs, n, text)
    ensures IsContent(c, fs, n + 1,
                      if IsReset(c, fs, n) then ResetText(fs, n)
                      else text + if IsDelta(c, fs, n) then fs[n].frame.delta.s else "")
  {
    var added := if IsDelta(c, fs, n) then fs[n].frame.delta.s else "";
    if IsReset(c, fs, n) {
      assert IsLastReset(c, fs, n, n + 1);
      assert ResetText(fs, n) + "" == ResetText(fs, n);
    } else if NoResetFrom(c, fs, 0, n) && text == Deltas(c, fs, 0, n) {
      assert NoResetFrom(c, fs, 0, n + 1);
    } else {
      var r: nat :| IsLastReset(c, fs, r, n) && text == ResetText(fs, r) + Deltas(c, fs, r + 1, n);
      assert IsLastReset(c, fs, r, n + 1);
      ConcatAssoc(ResetText(fs, r), Deltas(c, fs, r + 1, n), added);
    }
  }

  /** Frames determine the text. */
  lemma ContentIsUnique(c: Session, fs: seq<Arrival>, n: nat, t: string, u: string)
    requires n <= |fs| && IsContent(c, fs, n, t) && IsContent(c, fs, n, u)
    ensures t == u
  {
    if !NoResetFrom(c, fs, 0, n) {
      var r: nat :| IsLastReset(c, fs, r, n) && t == ResetText(fs, r) + Deltas(c, fs, r + 1, n);
      var q: nat :| IsLastReset(c, fs, q, n) && u == ResetText(fs, q) + Deltas(c, fs, q + 1, n);
      assert r == q;
    } else {
      forall r: nat ensures !IsLastReset(c, fs, r, n) {}
    }
  }

  lemma ChunkStays(c: Session, fs: seq<Arrival>, i: nat, chunks: seq<Chunk>, more: seq<Chunk>)
    requires i < |fs| && IsChunkOf(c, fs, i, chunks)
    ensures IsChunkOf(c, fs, i, chunks + more)
  {
    var k := |Emissions(c, fs, i)|;
    assert (chunks + more)[k] == chunks[k];
  }

  lemma ChunkIsNew(c: Session, fs: seq<Arrival>, n: nat, chunks: seq<Chunk>, chunk: Chunk)
    requires n < |fs| && |chunks| == |Emissions(c, fs, n)|
    requires chunk.sequence == |chunks| && !chunk.isFinal && Shows(c, fs, n, chunk.content)
    ensures IsChunkOf(c, fs, n, chunks + [chunk])
  {
    assert (chunks + [chunk])[|chunks|] == chunk;
  }

  lemma ChunksStep(c: Session, fs: seq<Arrival>, n: nat, chunks: seq<Chunk>, more: seq<Chunk>)
    requires n < |fs| && AreChunks(c, fs, n, chunks)
    requires if IsEmission(c, fs, n) then |more| == 1 && more[0].sequence == |chunks| && !more[0].isFinal && Shows(c, fs, n, more[0].content)
             else more == []
    ensures AreChunks(c, fs, n + 1, chunks + more)
  {
    EmissionsStep(c, fs, n);
    forall i: nat | i < n + 1 && IsEmission(c, fs, i) ensures IsChunkOf(c, fs, i, chunks + more) {
      if i < n {
        ChunkStays(c, fs, i, chunks, more);
      } else {
        assert more == [more[0]];
        ChunkIsNew(c, fs, n, chunks, more[0]);
      }
    }
  }

  // ---------------------------------------------------------------------
  // One frame more: the handler.
  // ---------------------------------------------------------------------

  /** Handling frame `n` in the state `st`. */
  function HandleAt(c: Session, fs: seq<Arrival>, n: nat, st: State, active: Active): Verdict
    requires n < |fs|
  {
    Handle(c, st, active, fs[n].frame, fs[n].at)
  }

  lemma OwnIff(c: Session, fs: seq<Arrival>, n: nat, st: State)
    requires n < |fs| && st.turnId == Ack(fs, n) && IsTurnBearing(fs[n].frame)
    ensures IsOwn(c, fs, n) <==> !IsForeign(c, st.turnId, fs[n].frame)
  {
  }

  lemma AckStep(c: Session, fs: seq<Arrival>, n: nat, st: State, active: Active)
    requires n < |fs| && st.turnId == Ack(fs, n) && st.turnId != Some("")
    ensures var v := HandleAt(c, fs, n, st, active);
            v.end.None? ==> v.state.turnId == Ack(fs, n + 1) && v.state.turnId != Some("")
  {
    HandleKeepsTurnId(c, st, active, fs[n].frame, fs[n].at);
  }

  lemma FirstStartIff(c: Session, fs: seq<Arrival>, n: nat, st: State)
    requires n < |fs| && (forall id :: id in st.startedIds <==> exists k: nat :: k < n && Starts(c, fs, k, id))
    ensures IsFirstStart(c, fs, n) <==> StartedId(c, fs, n) != "" && StartedId(c, fs, n) !in st.startedIds
  {
    var id := StartedId(c, fs, n);
    if id != "" {
      assert Starts(c, fs, n, id);
      if id in st.startedIds {
        var k: nat :| k < n && Starts(c, fs, k, id);
      }
    }
  }

  lemma StartedIdsStep(c: Session, fs: seq<Arrival>, n: nat, ids: set<string>, ids': set<string>)
    requires n < |fs| && (forall id :: id in ids <==> exists k: nat :: k < n && Starts(c, fs, k, id))
    requires ids' == ids + if StartedId(c, fs, n) != "" then {StartedId(c, fs, n)} else {}
    ensures forall id :: id in ids' <==> exists k: nat :: k < n + 1 && Starts(c, fs, k, id)
  {
    forall id ensures id in ids' <==> exists k: nat :: k < n + 1 && Starts(c, fs, k, id) {
      assert Starts(c, fs, n, id) <==> id != "" && id == StartedId(c, fs, n);
      if k: nat :| k < n + 1 && Starts(c, fs, k, id) {
        assert k < n || k == n;
      }
    }
  }

  /** The part of the state that frame `n` changes, in terms of what the frame is. */
  ghost predicate Moves(c: Session, fs: seq<Arrival>, n: nat, st: State, st': State)
    requires n < |fs|
  {
    var tool := IsToolStart(c, fs, n);
    && st'.content == (if IsReset(c, fs, n) then ResetText(fs, n)
                       else st.content + if IsDelta(c, fs, n) then fs[n].frame.delta.s else "")
    && st'.startedIds == st.startedIds + (if StartedId(c, fs, n) != "" then {StartedId(c, fs, n)} else {})
    && st'.toolCalls == st.toolCalls + (if tool then 1 else 0)
    && st'.toolCounts == (if tool then Increment(st.toolCounts, ToolName(fs[n].frame.item.value)) else st.toolCounts)
    && st'.denials == (if IsProgress(c, fs, n) then 0 else st.denials + if IsDenied(c, fs, n) then 1 else 0)
    && st'.chunks == st.chunks + (if !IsEmission(c, fs, n) then []
                                  else [Chunk(|st.chunks|, if tool then c.progress(st'.toolCalls, st'.toolCounts) else st'.content, false)])
  }

  /** What the frames up to `n` say that the handler relies on. */
  ghost predicate Knows(c: Session, fs: seq<Arrival>, n: nat, st: State)
    requires n <= |fs|
  {
    && st.turnId == Ack(fs, n) && st.turnId != Some("")
    && (forall id :: id in st.startedIds <==> exists k: nat :: k < n && Starts(c, fs, k, id))
    && st.toolCalls == |ToolStarts(c, fs, n)|
  }

  /** The kinds of frames that change more than the count of denials. */
  predicate IsContentKind(f: Frame) {
    f.verb.TurnStarted? || f.verb.ItemStarted? || f.verb.ItemCompleted? || f.verb.AgentDelta?
  }

  /** The same but for turn id and denials. */
  predicate SameContent(st: State, st': State) {
    && st'.content == st.content && st'.startedIds == st.startedIds && st'.toolCalls == st.toolCalls
    && st'.toolCounts == st.toolCounts && st'.chunks == st.chunks
  }

  lemma EndKeepsContent(c: Session, st: State, active: Active, f: Frame, now: Instant)
    ensures var v := HandleTurnCompleted(c, st, active, f, now);
            v.end.None? ==> v.state == st
  {
  }

  lemma OtherKindKeepsContent(c: Session, st: State, active: Active, f: Frame, now: Instant)
    requires !IsContentKind(f) || IsForeign(c, st.turnId, f)
    ensures var v := Handle(c, st, active, f, now);
            v.end.None? && !IsApproval(f) ==> SameContent(st, v.state) && v.state.denials == st.denials
  {
    EndKeepsContent(c, st, active, f, now);
  }

  lemma ApprovalKeepsContent(c: Session, fs: seq<Arrival>, n: nat, st: State, active: Active)
    requires n < |fs| && IsApproval(fs[n].frame)
    ensures var v := HandleAt(c, fs, n, st, active);
            SameContent(st, v.state) && v.state.denials == st.denials + if IsDenied(c, fs, n) then 1 else 0
  {
  }

  /** Frames of other turns or other kinds move nothing, except that denials count. */
  lemma PlainMoves(c: Session, fs: seq<Arrival>, n: nat, st: State, active: Active)
    requires n < |fs| && Knows(c, fs, n, st) && HandleAt(c, fs, n, st, active).end.None?
    requires !IsContentKind(fs[n].frame) || !IsOwn(c, fs, n)
    ensures Moves(c, fs, n, st, HandleAt(c, fs, n, st, active).state)
  {
    var st' := HandleAt(c, fs, n, st, active).state;
    if IsContentKind(fs[n].frame) {
      OwnIff(c, fs, n, st);
    }
    if IsApproval(fs[n].frame) {
      ApprovalKeepsContent(c, fs, n, st, active);
    } else {
      OtherKindKeepsContent(c, st, active, fs[n].frame, fs[n].at);
    }
    NothingMoves(c, fs, n, st, st');
  }

  lemma NothingMoves(c: Session, fs: seq<Arrival>, n: nat, st: State, st': State)
    requires n < |fs| && (!IsContentKind(fs[n].frame) || !IsOwn(c, fs, n)) && SameContent(st, st')
    requires st'.denials == st.denials + if IsDenied(c, fs, n) then 1 else 0
    ensures Moves(c, fs, n, st, st')
  {
    assert !IsReset(c, fs, n) && !IsDelta(c, fs, n) && StartedId(c, fs, n) == "" && !IsProgress(c, fs, n);
    assert !IsToolStart(c, fs, n) && !IsEmission(c, fs, n);
    assert st.content + "" == st.content;
    assert st.chunks + [] == st.chunks;
  }

  lemma OwnKindIsDispatched(c: Session, fs: seq<Arrival>, n: nat, st: State, active: Active)
    requires n < |fs| && Knows(c, fs, n, st) && IsContentKind(fs[n].frame) && IsOwn(c, fs, n)
    ensures HandleAt(c, fs, n, st, active) == Dispatch(c, st, active, fs[n].frame, fs[n].at)
  {
    OwnIff(c, fs, n, st);
  }

  lemma DeltaMoves(c: Session, fs: seq<Arrival>, n: nat, st: State, active: Active)
    requires n < |fs| && IsOwn(c, fs, n) && fs[n].frame.verb.AgentDelta?
    ensures Moves(c, fs, n, st, Dispatch(c, st, active, fs[n].frame, fs[n].at).state)
  {
    assert !IsReset(c, fs, n) && StartedId(c, fs, n) == "" && !IsToolStart(c, fs, n) && !IsProgress(c, fs, n);
    assert st.content + "" == st.content && st.chunks + [] == st.chunks;
  }

  lemma ReplyMoves(c: Session, fs: seq<Arrival>, n: nat, st: State, active: Active)
    requires n < |fs| && IsOwn(c, fs, n) && fs[n].frame.verb.ItemCompleted?
    ensures Moves(c, fs, n, st, Dispatch(c, st, active, fs[n].frame, fs[n].at).state)
  {
    assert !IsDelta(c, fs, n) && StartedId(c, fs, n) == "" && !IsToolStart(c, fs, n) && !IsRestart(c, fs, n);
    assert !IsEmission(c, fs, n) && !IsDenied(c, fs, n) && IsProgress(c, fs, n);
    assert st.content + "" == st.content && st.chunks + [] == st.chunks;
  }

  lemma TurnStartedMoves(c: Session, fs: seq<Arrival>, n: nat, st: State, active: Active)
    requires n < |fs| && IsOwn(c, fs, n) && fs[n].frame.verb.TurnStarted?
    ensures Moves(c, fs, n, st, Dispatch(c, st, active, fs[n].frame, fs[n].at).state)
  {
    assert !IsReset(c, fs, n) && !IsDelta(c, fs, n) && StartedId(c, fs, n) == "" && !IsToolStart(c, fs, n);
    assert st.content + "" == st.content && st.chunks + [] == st.chunks;
  }

  /** An item without an id, or started before. */
  lemma ReplayMoves(c: Session, fs: seq<Arrival>, n: nat, st: State, active: Active)
    requires n < |fs| && IsOwn(c, fs, n) && fs[n].frame.verb.ItemStarted?
    requires !IsFirstStart(c, fs, n) && (StartedId(c, fs, n) == "" || StartedId(c, fs, n) in st.startedIds)
    ensures Moves(c, fs, n, st, Dispatch(c, st, active, fs[n].frame, fs[n].at).state)
  {
    var id, st' := StartedId(c, fs, n), Dispatch(c, st, active, fs[n].frame, fs[n].at).state;
    assert st' == st.(denials := 0);
    assert !IsDelta(c, fs, n) && !IsReset(c, fs, n) && IsProgress(c, fs, n) && !IsToolStart(c, fs, n);
    assert st.content + "" == st.content && st.chunks + [] == st.chunks;
    assert st.startedIds + (if id != "" then {id} else {}) == st.startedIds;
  }

  lemma FirstStartMoves(c: Session, fs: seq<Arrival>, n: nat, st: State, active: Active)
    requires n < |fs| && IsOwn(c, fs, n) && fs[n].frame.verb.ItemStarted?
    requires IsFirstStart(c, fs, n) && StartedId(c, fs, n) != "" && StartedId(c, fs, n) !in st.startedIds
    requires st.toolCalls > 0 <==> ToolStarts(c, fs, n) != {}
    ensures Moves(c, fs, n, st, Dispatch(c, st, active, fs[n].frame, fs[n].at).state)
  {
    assert !IsDelta(c, fs, n) && !IsReply(c, fs, n) && IsProgress(c, fs, n);
    assert st.content + "" == st.content && st.chunks + [] == st.chunks;
  }

  lemma ItemStartedMoves(c: Session, fs: seq<Arrival>, n: nat, st: State, active: Active)
    requires n < |fs| && Knows(c, fs, n, st) && IsOwn(c, fs, n) && fs[n].frame.verb.ItemStarted?
    ensures Moves(c, fs, n, st, Dispatch(c, st, active, fs[n].frame, fs[n].at).state)
  {
    FirstStartIff(c, fs, n, st);
    assert st.toolCalls > 0 <==> ToolStarts(c, fs, n) != {};
    if IsFirstStart(c, fs, n) {
      FirstStartMoves(c, fs, n, st, active);
    } else {
      ReplayMoves(c, fs, n, st, active);
    }
  }

  lemma OwnKindMoves(c: Session, fs: seq<Arrival>, n: nat, st: State, active: Active)
    requires n < |fs| && Knows(c, fs, n, st) && IsContentKind(fs[n].frame) && IsOwn(c, fs, n)
    ensures Moves(c, fs, n, st, Dispatch(c, st, active, fs[n].frame, fs[n].at).state)
  {
    match fs[n].frame.verb
    case AgentDelta => DeltaMoves(c, fs, n, st, active);
    case ItemCompleted => ReplyMoves(c, fs, n, st, active);
    case TurnStarted => TurnStartedMoves(c, fs, n, st, active);
    case ItemStarted => ItemStartedMoves(c, fs, n, st, active);
  }

  lemma HandleMoves(c: Session, fs: seq<Arrival>, n: nat, st: State, active: Active)
    requires n < |fs| && Knows(c, fs, n, st) && HandleAt(c, fs, n, st, active).end.None?
    ensures Moves(c, fs, n, st, HandleAt(c, fs, n, st, active).state)
  {
    if IsContentKind(fs[n].frame) && IsOwn(c, fs, n) {
      OwnKindIsDispatched(c, fs, n, st, active);
      OwnKindMoves(c, fs, n, st, active);
    } else {
      PlainMoves(c, fs, n, st, active);
    }
  }

  lemma DescribesStep(c: Session, fs: seq<Arrival>, n: nat, st: State, st': State)
    requires n < |fs|
    ensures Describes(c, fs, n, st) && Moves(c, fs, n, st, st') && st'.turnId == Ack(fs, n + 1) && st'.turnId != Some("")
            ==> Describes(c, fs, n + 1, st')
  {
    if Describes(c, fs, n, st) && Moves(c, fs, n, st, st') {
      ContentStep(c, fs, n, st.content);
      StartedIdsStep(c, fs, n, st.startedIds, st'.startedIds);
      ToolStartsStep(c, fs, n);
      CountsStep(c, fs, n, st.toolCounts);
      DenialsStep(c, fs, n);
      assert IsProgress(c, fs, n) ==> !IsDenied(c, fs, n);
      ShownStep(c, fs, n, st, st');
    }
  }

  lemma ShownStep(c: Session, fs: seq<Arrival>, n: nat, st: State, st': State)
    requires n < |fs| && AreChunks(c, fs, n, st.chunks) && Moves(c, fs, n, st, st')
    requires IsContent(c, fs, n + 1, st'.content)
    requires AreCounts(c, fs, n + 1, st'.toolCounts) && st'.toolCalls == |ToolStarts(c, fs, n + 1)|
    ensures AreChunks(c, fs, n + 1, st'.chunks)
  {
    var more := st'.chunks[|st.chunks|..];
    assert st'.chunks == st.chunks + more;
    if IsEmission(c, fs, n) {
      if IsToolStart(c, fs, n) {
        assert !IsDelta(c, fs, n);
        assert ShowsTools(c, fs, n + 1, more[0].content);
      }
      assert Shows(c, fs, n, more[0].content);
    }
    ChunksStep(c, fs, n, st.chunks, more);
  }

  // ---------------------------------------------------------------------
  // The end.
  // ---------------------------------------------------------------------

  lemma StartEndIff(c: Session, fs: seq<Arrival>, n: nat, st: State, active: Active, end: End)
    requires n < |fs| && st.turnId == Ack(fs, n) && IsStartReply(fs, n)
    ensures HandleAt(c, fs, n, st, active).end == Some(end) <==> EndsWith(c, fs, n, st.content, end)
    ensures HandleAt(c, fs, n, st, active).end.Some? ==> HandleAt(c, fs, n, st, active).state == st
  {
  }

  lemma ApprovalEndsWith(c: Session, fs: seq<Arrival>, n: nat, text: string, end: End)
    requires n < |fs| && IsApproval(fs[n].frame)
    ensures EndsWith(c, fs, n, text, end) <==> end.DenialLoop? && IsDenied(c, fs, n) && |Denials(c, fs, n + 1)| >= 5
  {
    assert fs[n].frame.verb.Other?;
  }

  lemma ApprovalEndIff(c: Session, fs: seq<Arrival>, n: nat, st: State, active: Active, end: End)
    requires n < |fs| && IsApproval(fs[n].frame) && st.denials == |Denials(c, fs, n)|
    ensures HandleAt(c, fs, n, st, active).end == Some(end) <==> EndsWith(c, fs, n, st.content, end)
    ensures HandleAt(c, fs, n, st, active).end.Some? ==> SameContent(st, HandleAt(c, fs, n, st, active).state)
  {
    ApprovalEndsWith(c, fs, n, st.content, end);
    DenialsStep(c, fs, n);
    ApprovalKeepsContent(c, fs, n, st, active);
    assert !IsProgress(c, fs, n);
  }

  lemma FinishedEndsWith(c: Session, fs: seq<Arrival>, n: nat, text: string, end: End)
    requires n < |fs| && fs[n].frame.verb.TurnCompleted? && IsOwn(c, fs, n)
    ensures EndsWith(c, fs, n, text, end) <==>
              match fs[n].frame.status
              case Unsettled => false
              case Interrupted => end.TurnInterrupted?
              case Failed => end.TurnFailed?
              case Completed => CompletesWith(c, fs[n].at, text, ToolStarts(c, fs, n) != {}, end)
  {
  }

  lemma CompletesIff(c: Session, st: State, active: Active, f: Frame, at: Instant, end: End)
    requires f.status.Completed?
    ensures HandleTurnCompleted(c, st, active, f, at).end == Some(end) <==> CompletesWith(c, at, st.content, st.toolCalls != 0, end)
  {
  }

  lemma OwnEndIff(c: Session, fs: seq<Arrival>, n: nat, st: State, active: Active, end: End)
    requires n < |fs| && fs[n].frame.verb.TurnCompleted? && IsOwn(c, fs, n) && st.toolCalls == |ToolStarts(c, fs, n)|
    ensures HandleTurnCompleted(c, st, active, fs[n].frame, fs[n].at).end == Some(end) <==> EndsWith(c, fs, n, st.content, end)
  {
    assert st.toolCalls == 0 <==> ToolStarts(c, fs, n) == {};
    FinishedEndsWith(c, fs, n, st.content, end);
    if fs[n].frame.status.Completed? {
      CompletesIff(c, st, active, fs[n].frame, fs[n].at, end);
    }
  }

  /** Frames of other kinds or other turns. */
  lemma OtherEndIff(c: Session, fs: seq<Arrival>, n: nat, st: State, active: Active, end: End)
    requires n < |fs| && st.turnId == Ack(fs, n) && !IsStartReply(fs, n) && !IsApproval(fs[n].frame)
    requires !(fs[n].frame.verb.TurnCompleted? && IsOwn(c, fs, n))
    ensures HandleAt(c, fs, n, st, active).end == Some(end) <==> EndsWith(c, fs, n, st.content, end)
    ensures HandleAt(c, fs, n, st, active).end.Some? ==> HandleAt(c, fs, n, st, active).state == st
  {
    if IsTurnBearing(fs[n].frame) {
      OwnIff(c, fs, n, st);
    }
  }

  lemma EndIff(c: Session, fs: seq<Arrival>, n: nat, st: State, active: Active, end: End)
    requires n < |fs| && Describes(c, fs, n, st)
    ensures HandleAt(c, fs, n, st, active).end == Some(end) <==> EndsWith(c, fs, n, st.content, end)
  {
    if IsStartReply(fs, n) {
      StartEndIff(c, fs, n, st, active, end);
    } else if IsApproval(fs[n].frame) {
      ApprovalEndIff(c, fs, n, st, active, end);
    } else if fs[n].frame.verb.TurnCompleted? && IsOwn(c, fs, n) {
      OwnIff(c, fs, n, st);
      OwnEndIff(c, fs, n, st, active, end);
    } else {
      OtherEndIff(c, fs, n, st, active, end);
    }
  }

  /** The final chunk of a delivered turn. */
  function FinalChunk(c: Session, end: End, text: string, sequence: nat, calls: nat, counts: map<string, nat>): seq<Chunk> {
    if end.Delivered? && !c.suppressEmission then [Chunk(sequence, c.render(c.scrub(text), calls, counts), true)] else []
  }

  lemma OwnEndState(c: Session, st: State, active: Active, f: Frame, now: Instant)
    ensures var v := HandleTurnCompleted(c, st, active, f, now);
            v.end.Some? ==>
              v.state == st.(chunks := st.chunks + FinalChunk(c, v.end.value, st.content, |st.chunks|, st.toolCalls, st.toolCounts))
  {
    assert st.chunks + [] == st.chunks;
  }

  /** The state in which frame `n` leaves a turn that it ends. */
  lemma EndState(c: Session, fs: seq<Arrival>, n: nat, st: State, active: Active)
    requires n < |fs| && Describes(c, fs, n, st) && HandleAt(c, fs, n, st, active).end.Some?
    ensures var v := HandleAt(c, fs, n, st, active);
            && v.state.content == st.content && v.state.toolCalls == st.toolCalls && v.state.toolCounts == st.toolCounts
            && v.state.chunks == st.chunks + FinalChunk(c, v.end.value, st.content, |st.chunks|, st.toolCalls, st.toolCounts)
  {
    var end := HandleAt(c, fs, n, st, active).end.value;
    EndIff(c, fs, n, st, active, end);
    assert st.chunks + [] == st.chunks;
    if IsStartReply(fs, n) {
      StartEndIff(c, fs, n, st, active, end);
    } else if IsApproval(fs[n].frame) {
      ApprovalEndIff(c, fs, n, st, active, end);
    } else if fs[n].frame.verb.TurnCompleted? && IsOwn(c, fs, n) {
      OwnIff(c, fs, n, st);
      OwnEndState(c, st, active, fs[n].frame, fs[n].at);
    } else {
      OtherEndIff(c, fs, n, st, active, end);
    }
  }

  // ---------------------------------------------------------------------
  // Whole turns.
  // ---------------------------------------------------------------------

  lemma {:induction false} FoldSnoc(c: Session, st: State, active: Active, fs: seq<Arrival>, last: Arrival)
    ensures var v := Fold(c, st, active, fs);
            Fold(c, st, active, fs + [last]) == if v.end.Some? then v else Handle(c, v.state, v.active, last.frame, last.at)
    decreases |fs|
  {
    var all := fs + [last];
    if fs == [] {
      assert all[1..] == [];
    } else {
      var v := Handle(c, st, active, fs[0].frame, fs[0].at);
      assert all[1..] == fs[1..] + [last];
      if v.end.None? {
        FoldSnoc(c, v.state, v.active, fs[1..], last);
      }
    }
  }

  /** What is left when frame `i` ends the turn. */
  ghost predicate IsResult(c: Session, fs: seq<Arrival>, i: nat, text: string, end: End, st: State)
    requires i <= |fs|
  {
    && st.content == text
    && st.toolCalls == |ToolStarts(c, fs, i)| && AreCounts(c, fs, i, st.toolCounts)
    && exists shown :: AreChunks(c, fs, i, shown)
                       && st.chunks == shown + FinalChunk(c, end, text, |shown|, st.toolCalls, st.toolCounts)
  }

  /** The turn goes on for `n` frames in the state described, or one of them was the first to end it. */
  ghost predicate IsTurn(c: Session, fs: seq<Arrival>, n: nat, v: Verdict)
    requires n <= |fs|
  {
    if v.end.None? then
      Describes(c, fs, n, v.state) && forall k: nat :: k < n ==> GoesOn(c, fs, k)
    else
      exists i: nat, text :: i < n && IsEnd(c, fs, i, text, v.end.value) && IsResult(c, fs, i, text, v.end.value, v.state)
  }

  lemma NothingYet(c: Session, fs: seq<Arrival>, submittedAt: Instant)
    ensures Describes(c, fs, 0, Initial(submittedAt))
  {
    assert ToolStarts(c, fs, 0) == {} && Denials(c, fs, 0) == {} && Emissions(c, fs, 0) == {};
    forall name ensures |ToolStartsOf(c, fs, 0, name)| == 0 {
      assert ToolStartsOf(c, fs, 0, name) == {};
    }
  }

  lemma TurnStep(c: Session, fs: seq<Arrival>, n: nat, v: Verdict, v': Verdict)
    requires n < |fs| && v.end.None? && IsTurn(c, fs, n, v) && v' == HandleAt(c, fs, n, v.state, v.active)
    ensures IsTurn(c, fs, n + 1, v')
  {
    var st := v.state;
    if v'.end.None? {
      AckStep(c, fs, n, st, v.active);
      HandleMoves(c, fs, n, st, v.active);
      DescribesStep(c, fs, n, st, v'.state);
      StillGoesOn(c, fs, n, st, v.active);
    } else {
      EndIff(c, fs, n, st, v.active, v'.end.value);
      EndState(c, fs, n, st, v.active);
      assert IsEnd(c, fs, n, st.content, v'.end.value);
      assert IsResult(c, fs, n, st.content, v'.end.value, v'.state);
    }
  }

  lemma StillGoesOn(c: Session, fs: seq<Arrival>, n: nat, st: State, active: Active)
    requires n < |fs| && Describes(c, fs, n, st) && HandleAt(c, fs, n, st, active).end.None?
    ensures GoesOn(c, fs, n)
  {
    forall text, end | IsContent(c, fs, n, text) ensures !EndsWith(c, fs, n, text, end) {
      ContentIsUnique(c, fs, n, text, st.content);
      EndIff(c, fs, n, st, active, end);
    }
  }

  lemma TurnStaysOver(c: Session, fs: seq<Arrival>, n: nat, v: Verdict)
    requires n < |fs| && v.end.Some?
    ensures IsTurn(c, fs, n, v) ==> IsTurn(c, fs, n + 1, v)
  {
  }

  lemma {:induction false} FoldIsTurn(c: Session, active: Active, fs: seq<Arrival>, submittedAt: Instant, n: nat)
    requires n <= |fs|
    ensures IsTurn(c, fs, n, Fold(c, Initial(submittedAt), active, fs[..n]))
  {
    if n == 0 {
      NothingYet(c, fs, submittedAt);
    } else {
      FoldIsTurn(c, active, fs, submittedAt, n - 1);
      var v, v' := Fold(c, Initial(submittedAt), active, fs[..n - 1]), Fold(c, Initial(submittedAt), active, fs[..n]);
      FoldSnoc(c, Initial(submittedAt), active, fs[..n - 1], fs[n - 1]);
      assert fs[..n] == fs[..n - 1] + [fs[n - 1]];
      if v.end.None? {
        TurnStep(c, fs, n - 1, v, v');
      } else {
        TurnStaysOver(c, fs, n - 1, v);
      }
    }
  }

  lemma EndIsFirst(c: Session, fs: seq<Arrival>, i: nat, text: string, end: End, i': nat, text': string, end': End)
    requires IsEnd(c, fs, i, text, end) && IsEnd(c, fs, i', text', end')
    ensures i == i' && text == text' && end == end'
  {
    assert i < i' ==> GoesOn(c, fs, i);
    assert i' < i ==> GoesOn(c, fs, i');
    ContentIsUnique(c, fs, i, text, text');
    OneEnd(c, fs, i, text, end, end');
  }

  lemma EndedAsItSays(c: Session, fs: seq<Arrival>, v: Verdict, i: nat, text: string, end: End)
    ensures IsTurn(c, fs, |fs|, v) && IsEnd(c, fs, i, text, end) ==> v.end == Some(end)
  {
    if IsTurn(c, fs, |fs|, v) && IsEnd(c, fs, i, text, end) {
      assert !GoesOn(c, fs, i);
      var i': nat, text' :| i' < |fs| && IsEnd(c, fs, i', text', v.end.value) && IsResult(c, fs, i', text', v.end.value, v.state);
      EndIsFirst(c, fs, i, text, end, i', text', v.end.value);
    }
  }

  /** A turn ends as the first frame that ends it says, with the text its own deltas and resets add
      up to, its tools counted name by name, and everything shown on the way; and it goes on, in
      the state they describe, if no frame ends it. */
  lemma TurnMeaning(c: Session, active: Active, fs: seq<Arrival>, submittedAt: Instant, end: End)
    ensures var v := Fold(c, Initial(submittedAt), active, fs);
            && IsTurn(c, fs, |fs|, v)
            && (v.end == Some(end) <==> exists i: nat, text :: IsEnd(c, fs, i, text, end))
  {
    var v := Fold(c, Initial(submittedAt), active, fs);
    FoldIsTurn(c, active, fs, submittedAt, |fs|);
    assert fs[..|fs|] == fs;
    if i: nat, text :| IsEnd(c, fs, i, text, end) {
      EndedAsItSays(c, fs, v, i, text, end);
    }
  }

  // ---------------------------------------------------------------------
  // The loop, with its timers.
  // ---------------------------------------------------------------------

  /** The loop's verdict and what its frames alone determine: the same if a frame ended the turn;
      otherwise the same text, tools and turn, and the same chunks but for that of a drain. */
  predicate Agree(v: Verdict, w: Verdict) {
    if w.end.Some? then v.end == w.end && v.active == w.active && v.state == At(w.state, v.state.lastActivity)
    else
      && v.state == At(w.state, v.state.lastActivity).(chunks := v.state.chunks)
      && (v.end.None? ==> v.active == w.active && v.state.chunks == w.state.chunks)
  }

  /** A pass that brings nothing to the handler. */
  lemma IdlePass(c: Session, st: State, active: Active, p: Pass)
    requires !ReachesHandler(c, st, p)
    ensures var v := Iterate(c, st, active, p);
            && v.state == At(st, v.state.lastActivity).(chunks := v.state.chunks)
            && (v.end.None? ==> v.state == st && v.active == active)
  {
    if HeadCheck(c, st, p.headAt) == Some(DeadlineExceeded) {
      DrainState(c, st, active, p.drain);
    }
  }

  lemma {:induction false} LoopAgrees(c: Session, st: State, activity: Instant, active: Active, passes: seq<Pass>)
    ensures Agree(RunLoop(c, At(st, activity), active, passes),
                  Fold(c, st, active, Taken(c, At(st, activity), active, passes)))
    decreases |passes|
  {
    if passes != [] {
      var p, st0 := passes[0], At(st, activity);
      var v := Iterate(c, st0, active, p);
      if ReachesHandler(c, st0, p) {
        var f, at := p.read.frame, p.readAt;
        HandleIgnoresActivity(c, st, active, f, at, at);
        var w := Handle(c, st, active, f, at);
        assert v == w.(state := At(w.state, at));
        var rest := if v.end.Some? then [] else Taken(c, v.state, v.active, passes[1..]);
        assert ([Arrival(f, at)] + rest)[1..] == rest;
        if v.end.None? {
          LoopAgrees(c, w.state, at, w.active, passes[1..]);
        }
      } else {
        IdlePass(c, st0, active, p);
        assert Taken(c, st0, active, passes) == if v.end.Some? then [] else Taken(c, st0, active, passes[1..]);
        if v.end.None? {
          LoopAgrees(c, st, activity, active, passes[1..]);
        }
      }
    }
  }

  /** The loop over every sequence of passes, in terms of the frames that reach the handler. */
  lemma LoopMeaning(c: Session, active: Active, passes: seq<Pass>, submittedAt: Instant)
    ensures var fs := Taken(c, Initial(submittedAt), active, passes);
            exists w :: IsTurn(c, fs, |fs|, w) && Agree(RunLoop(c, Initial(submittedAt), active, passes), w)
  {
    var fs := Taken(c, Initial(submittedAt), active, passes);
    var w := Fold(c, Initial(submittedAt), active, fs);
    assert At(Initial(submittedAt), submittedAt) == Initial(submittedAt);
    LoopAgrees(c, Initial(submittedAt), submittedAt, active, passes);
    FoldIsTurn(c, active, fs, submittedAt, |fs|);
    assert fs[..|fs|] == fs;
  }

  /** How the drain after the work deadline ends the turn. */
  predicate DrainsWith(c: Session, st: State, d: Drain, end: End) {
    var found := st.turnId.Some? && d.reply.Some? && d.reply.value.status.Completed? && (d.content != "" || st.toolCalls > 0);
    var cut := Contains(d.content, "[output interrupted by stream rule]");
    match end
    case DeadlineExceeded => !found
    case StreamRule => found && cut
    case Silent => found && !cut && c.isSilence(c.scrub(d.content))
    case Delivered => found && !cut && !c.isSilence(c.scrub(d.content))
    case _ => false
  }

  /** How a pass that brings nothing to the handler ends the turn. */
  predicate PassEndsWith(c: Session, st: State, p: Pass, end: End) {
    var limit := if st.turnId.Some? then c.workDeadline else c.deadline;
    if st.turnId.None? && p.headAt >= c.ackDeadline then end.AckTimeout?
    else if p.headAt >= limit then DrainsWith(c, st, p.drain, end)
    else if p.headAt >= st.lastActivity + c.requestTimeout then end.IdleTimeout?
    else match end
      case Disconnected => p.read.Closed?
      case SocketError => p.read.Broken?
      case InvalidJson => p.read.NotJson?
      case DeadlineExceeded => (p.read.NotText? || (p.read.Text? && !p.read.frame.verb.TurnCompleted?)) && p.readAt >= limit
      case _ => false
  }

  lemma DrainsIff(c: Session, st: State, active: Active, d: Drain, end: End)
    ensures AfterDeadline(c, st, active, d).end == Some(end) <==> DrainsWith(c, st, d, end)
  {
  }

  /** Timers, the socket and the drain end a turn exactly so. */
  lemma PassEndIff(c: Session, st: State, active: Active, p: Pass, end: End)
    requires !ReachesHandler(c, st, p)
    ensures Iterate(c, st, active, p).end == Some(end) <==> PassEndsWith(c, st, p, end)
  {
    DrainsIff(c, st, active, p.drain, end);
  }

  /** A drain that delivers shows what it collected, in one final chunk. */
  lemma DrainState(c: Session, st: State, active: Active, d: Drain)
    ensures var v := AfterDeadline(c, st, active, d);
            v.state == st.(chunks := st.chunks + FinalChunk(c, v.end.value, d.content, |st.chunks|, st.toolCalls, st.toolCounts))
  {
    assert st.chunks + [] == st.chunks;
  }

  // ---------------------------------------------------------------------
  // Names and entries.
  // ---------------------------------------------------------------------

  /** The acknowledgement completes the session's entry, for a later cancellation. */
  lemma AckIsRecorded(c: Session, fs: seq<Arrival>, n: nat, st: State, active: Active)
    requires n < |fs| && st.turnId == Ack(fs, n) && IsStartReply(fs, n) && c.key in active
    ensures var v := HandleAt(c, fs, n, st, active);
            v.end.None? ==> v.active == active[c.key := ActiveTurn(c.threadId, Ack(fs, n + 1), active[c.key].insertedAt)]
  {
  }

  predicate NoSpace(s: string) {
    forall i :: 0 <= i < |s| ==> !IsWhitespace(s[i])
  }

  /** `word` is the first stretch without whitespace in `name`. */
  ghost predicate IsFirstWord(name: string, word: string) {
    word != "" && NoSpace(word) && exists before, after :: Surround(name, before, word, after)
  }

  predicate Surround(name: string, before: string, word: string, after: string) {
    name == before + word + after && AllSpace(before) && (after == "" || IsWhitespace(after[0]))
  }

  lemma {:induction false} SkipSpacesMeaning(s: string)
    ensures SkipSpaces(s) == "" || !IsWhitespace(SkipSpaces(s)[0])
    ensures |SkipSpaces(s)| <= |s| && SkipSpaces(s) == s[|s| - |SkipSpaces(s)|..] && AllSpace(s[..|s| - |SkipSpaces(s)|])
  {
    if s != [] && IsWhitespace(s[0]) {
      SkipSpacesMeaning(s[1..]);
    }
  }

  lemma {:induction false} TakeWordMeaning(s: string)
    ensures var w := TakeWord(s);
            |w| <= |s| && w == s[..|w|] && NoSpace(w) && (|w| < |s| ==> IsWhitespace(s[|w|]))
  {
    if s != [] && !IsWhitespace(s[0]) {
      TakeWordMeaning(s[1..]);
    }
  }

  /** A tool is counted under the first word of its name, or all of a blank name. */
  lemma FirstWordMeaning(name: string)
    ensures if AllSpace(name) then FirstWord(name) == name else IsFirstWord(name, FirstWord(name))
  {
    var rest := SkipSpaces(name);
    SkipSpacesMeaning(name);
    TakeWordMeaning(rest);
    var word := TakeWord(rest);
    var before, after := name[..|name| - |rest|], rest[|word|..];
    if rest == "" {
      assert name == before;
    } else {
      assert !IsWhitespace(name[|name| - |rest|]);
      assert word != "";
      assert after == "" || after[0] == rest[|word|];
      assert Surround(name, before, word, after);
    }
  }
}
