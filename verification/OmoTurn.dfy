/** One turn against the OMO app-server: the frame loop of the client and the ownership map
    that guards against submitting a turn twice. */
module OmoTurn {
  import opened Common

  type Key = string

  /** Nanoseconds on the monotonic clock. */
  type Instant = int

  const APPROVAL_DENIAL_TURN_LIMIT: nat := 5
  const ACTIVE_TURN_STALE_MARGIN: int := 600 * SECOND

  // ---------------------------------------------------------------------
  // Frames: the members of a JSON-RPC message that the loop reads.
  // ---------------------------------------------------------------------

  datatype Field = Absent | Str(s: string) | NonString {
    function AsStr(): Option<string> {
      if Str? then Some(s) else None
    }
    function OrElse(other: Field): Field {
      if Absent? then other else this
    }
    function OrEmpty(): string {
      if Str? then s else ""
    }
  }

  datatype RpcId = NoId | Number(n: nat) | OtherId

  /** The `method` member: absent, not a string, one of the names the loop knows, or another. */
  datatype Method =
    | NoMethod
    | NotAString
    | TurnStarted
    | TurnCompleted
    | TurnErrorNote
    | ItemStarted
    | ItemCompleted
    | AgentDelta
    | ThreadStatus
    | ErrorNote
    | Other(name: string)

  function MethodOf(name: string): Method {
    match name
    case "turn/started" => TurnStarted
    case "turn/completed" => TurnCompleted
    case "turn/error" => TurnErrorNote
    case "item/started" => ItemStarted
    case "item/completed" => ItemCompleted
    case "item/agentMessage/delta" => AgentDelta
    case "thread/status/changed" => ThreadStatus
    case "error" => ErrorNote
    case _ => Other(name)
  }

  /** The `type` of an item; absent, empty and non-string types are `NoKind`. */
  datatype Kind = NoKind | AgentMessage | UserMessage | Reasoning | Tool(name: string)

  /** The `status` of a turn; anything but the three terminal ones is `Unsettled`. */
  datatype Status = Unsettled | Completed | Interrupted | Failed

  datatype Item = Item(id: Field, kind: Kind, text: Field, command: Field, tool: Field, name: Field, path: Field)

  datatype Frame = Frame(
    id: RpcId,
    verb: Method,
    hasError: bool,
    hasResult: bool,
    resultTurnId: Field,
    threadId: Field,
    turnIdField: Field,
    hasTurn: bool,
    turnDotId: Field,
    status: Status,
    item: Option<Item>,
    delta: Field,
    namesCommand: bool)
  {
    function TurnId(): Option<string> {
      turnIdField.OrElse(turnDotId).AsStr()
    }
  }

  predicate Contains(s: string, part: string) {
    part <= s || (s != [] && Contains(s[1..], part))
  }

  predicate IsApprovalRequest(name: string) {
    || Contains(name, "Approval")
    || Contains(name, "requestApproval")
    || ("item/" <= name && |name| >= 8 && name[|name| - 8..] == "/request")
  }

  /** None of the names the loop knows asks for approval. */
  lemma KnownNamesAskNoApproval(name: string)
    requires !MethodOf(name).Other?
    ensures !IsApprovalRequest(name)
  {
    if |name| <= 12 {
      ShortNames(name);
    } else if |name| <= 14 {
      MiddleNames(name);
    } else if |name| <= 21 {
      LongNames(name);
    } else {
      LongestNames(name);
    }
    NoApprovalByLetters(name);
  }

  lemma ShortNames(name: string)
    requires !MethodOf(name).Other? && |name| <= 12
    ensures 'A' !in name && (|name| >= 8 ==> name[|name| - 7] != 'r')
  {
  }

  lemma MiddleNames(name: string)
    requires !MethodOf(name).Other? && 12 < |name| <= 14
    ensures 'A' !in name && name[|name| - 7] != 'r'
  {
  }

  lemma LongNames(name: string)
    requires !MethodOf(name).Other? && 14 < |name| <= 21
    ensures 'A' !in name && name[|name| - 7] != 'r'
  {
  }

  lemma LongestNames(name: string)
    requires !MethodOf(name).Other? && |name| > 21
    ensures 'A' !in name && name[|name| - 7] != 'r'
  {
  }

  lemma NoApprovalByLetters(name: string)
    requires 'A' !in name && (|name| >= 8 ==> name[|name| - 7] != 'r')
    ensures !IsApprovalRequest(name)
  {
    ContainsItsLetters(name, "Approval", 0);
    ContainsItsLetters(name, "requestApproval", 7);
    assert |name| >= 8 ==> name[|name| - 8..][1] == name[|name| - 7];
  }

  lemma {:induction false} ContainsItsLetters(s: string, part: string, i: nat)
    requires i < |part|
    ensures Contains(s, part) ==> part[i] in s
    decreases |s|
  {
    if part <= s {
      assert s[i] == part[i];
    } else if s != [] {
      ContainsItsLetters(s[1..], part, i);
    }
  }

  // ---------------------------------------------------------------------
  // State.
  // ---------------------------------------------------------------------

  datatype ActiveTurn = ActiveTurn(threadId: string, turnId: Option<string>, insertedAt: Instant)

  type Active = map<Key, ActiveTurn>

  datatype Chunk = Chunk(sequence: nat, content: string, isFinal: bool)

  /** What a turn is run with. The content filters and renderings are parameters. */
  datatype Session = Session(
    key: Key,
    threadId: string,
    isCron: bool,
    suppressEmission: bool,
    allowsTerminal: Option<bool>,
    yolo: bool,
    autoApprove: bool,
    startedAt: Instant,
    deadline: Instant,
    workDeadline: Instant,
    ackDeadline: Instant,
    requestTimeout: int,
    noContentGrace: int,
    scrub: string -> string,
    isSilence: string -> bool,
    progress: (nat, map<string, nat>) -> string,
    render: (string, nat, map<string, nat>) -> string)

  /** The loop's variables; the start is acknowledged when there is a turn id. */
  datatype State = State(
    turnId: Option<string>,
    content: string,
    toolCalls: nat,
    toolCounts: map<string, nat>,
    startedIds: set<string>,
    denials: nat,
    chunks: seq<Chunk>,
    lastActivity: Instant)
  {
    function Emit(text: string, isFinal: bool): State {
      this.(chunks := chunks + [Chunk(|chunks|, text, isFinal)])
    }
  }

  datatype End =
    | Delivered
    | Silent
    | StartRejected
    | MissingTurnId
    | DenialLoop
    | TurnInterrupted
    | TurnFailed
    | StreamRule
    | NoContent
    | TurnError
    | AckTimeout
    | DeadlineExceeded
    | IdleTimeout
    | SocketError
    | InvalidJson
    | Disconnected

  datatype Verdict = Verdict(state: State, active: Active, end: Option<End>)

  // ---------------------------------------------------------------------
  // Handling one frame.
  // ---------------------------------------------------------------------

  predicate IsStartResponse(st: State, f: Frame) {
    f.verb.NoMethod? && f.id == Number(3) && st.turnId.None?
  }

  function HandleStart(c: Session, st: State, active: Active, f: Frame, now: Instant): Verdict {
    if f.hasError then Verdict(st, active - {c.key}, Some(StartRejected))
    else if !f.resultTurnId.Str? || f.resultTurnId.s == "" then Verdict(st, active, Some(MissingTurnId))
    else
      var id := Some(f.resultTurnId.s);
      var insertedAt := if c.key in active then active[c.key].insertedAt else now;
      Verdict(st.(turnId := id), active[c.key := ActiveTurn(c.threadId, id, insertedAt)], None)
  }

  /** None of the names the loop knows asks for approval, so only other ones are searched. */
  predicate IsApproval(f: Frame) {
    f.id != NoId && f.verb.Other? && IsApprovalRequest(f.verb.name)
  }

  function HandleApproval(c: Session, st: State, active: Active, f: Frame): Verdict
    requires f.verb.Other?
  {
    var isCommand := Contains(f.verb.name, "commandExecution") || f.namesCommand;
    if c.allowsTerminal == Some(false) && isCommand then Verdict(st, active, None)
    else if c.yolo || c.autoApprove then Verdict(st, active, None)
    else
      var st' := st.(denials := st.denials + 1);
      Verdict(st', active, if st'.denials >= APPROVAL_DENIAL_TURN_LIMIT then Some(DenialLoop) else None)
  }

  predicate IsTurnError(f: Frame) {
    f.verb.TurnErrorNote? || (f.verb.ErrorNote? && (!f.turnIdField.Absent? || f.hasTurn))
  }

  predicate IsTurnBearing(f: Frame) {
    match f.verb
    case TurnStarted | TurnCompleted | ItemStarted | ItemCompleted | AgentDelta | ThreadStatus => true
    case TurnErrorNote | ErrorNote => IsTurnError(f)
    case Other(name) => "turn/" <= name || "item/" <= name
    case NoMethod | NotAString => false
  }

  /** The frame belongs to another thread or turn, or comes before the start is acknowledged. */
  predicate IsForeign(c: Session, turnId: Option<string>, f: Frame) {
    IsTurnBearing(f) && (turnId.None? || f.threadId.AsStr() != Some(c.threadId) || f.TurnId() != turnId)
  }

  function ToolName(item: Item): string
    requires item.kind.Tool?
  {
    var named := item.command.OrElse(item.tool).OrElse(item.name).OrElse(item.path);
    FirstWord(if named.Str? then named.s else item.kind.name)
  }

  /** The first word of a name, or the name itself if it has none. */
  function FirstWord(name: string): string {
    var rest := SkipSpaces(name);
    if rest == "" then name else TakeWord(rest)
  }

  function SkipSpaces(s: string): string {
    if s != [] && IsWhitespace(s[0]) then SkipSpaces(s[1..]) else s
  }

  function TakeWord(s: string): string {
    if s == [] || IsWhitespace(s[0]) then "" else [s[0]] + TakeWord(s[1..])
  }

  function Increment(counts: map<string, nat>, name: string): map<string, nat> {
    counts[name := 1 + if name in counts then counts[name] else 0]
  }

  function HandleStarted(c: Session, st: State, item: Item): State {
    var id := item.id.OrEmpty();
    if id == "" || id in st.startedIds then st
    else
      var st1 := st.(startedIds := st.startedIds + {id});
      if item.kind.Tool? then
        var st2 := st1.(toolCalls := st1.toolCalls + 1, toolCounts := Increment(st1.toolCounts, ToolName(item)));
        if c.isCron then st2 else st2.Emit(c.progress(st2.toolCalls, st2.toolCounts), false)
      else if item.kind.AgentMessage? && st1.toolCalls > 0 then st1.(content := "")
      else st1
  }

  function HandleCompletedItem(st: State, item: Item): State {
    if item.kind.AgentMessage? && item.text.Str? then st.(content := item.text.s) else st
  }

  function HandleDelta(c: Session, st: State, f: Frame): State {
    if !f.delta.Str? || f.delta.s == "" then st
    else
      var st1 := st.(content := st.content + f.delta.s);
      if c.suppressEmission then st1 else st1.Emit(st1.content, false)
  }

  predicate CutByStreamRule(content: string) {
    Contains(content, "[output interrupted by stream rule]")
  }

  function HandleTurnCompleted(c: Session, st: State, active: Active, f: Frame, now: Instant): Verdict {
    var released := active - {c.key};
    if f.status.Interrupted? then Verdict(st, released, Some(TurnInterrupted))
    else if f.status.Failed? then Verdict(st, released, Some(TurnFailed))
    else if f.status.Unsettled? then Verdict(st, active, None)
    else if CutByStreamRule(st.content) then Verdict(st, released, Some(StreamRule))
    else
      var text := c.scrub(st.content);
      if c.isSilence(text) then Verdict(st, released, Some(Silent))
      else if text == "" && st.toolCalls == 0 then
        if now - c.startedAt < c.noContentGrace then Verdict(st, active, None)
        else Verdict(st, released, Some(NoContent))
      else if c.suppressEmission then Verdict(st, released, Some(Delivered))
      else Verdict(st.Emit(c.render(text, st.toolCalls, st.toolCounts), true), released, Some(Delivered))
  }

  function Dispatch(c: Session, st: State, active: Active, f: Frame, now: Instant): Verdict {
    match f.verb
    case TurnStarted => Verdict(st.(denials := 0), active, None)
    case ItemStarted =>
      var st1 := st.(denials := 0);
      Verdict(if f.item.Some? then HandleStarted(c, st1, f.item.value) else st1, active, None)
    case ItemCompleted =>
      var st1 := st.(denials := 0);
      Verdict(if f.item.Some? then HandleCompletedItem(st1, f.item.value) else st1, active, None)
    case AgentDelta => Verdict(HandleDelta(c, st, f), active, None)
    case TurnCompleted => HandleTurnCompleted(c, st, active, f, now)
    case TurnErrorNote | ErrorNote => Verdict(st, active, if IsTurnError(f) then Some(TurnError) else None)
    case _ => Verdict(st, active, None)
  }

  /** The loop body from the arrival of a parsed frame on, timers aside. */
  function Handle(c: Session, st: State, active: Active, f: Frame, now: Instant): Verdict {
    if IsStartResponse(st, f) then HandleStart(c, st, active, f, now)
    else if IsApproval(f) then HandleApproval(c, st, active, f)
    else if IsForeign(c, st.turnId, f) then Verdict(st, active, None)
    else Dispatch(c, st, active, f, now)
  }

  // ---------------------------------------------------------------------
  // Timers.
  // ---------------------------------------------------------------------

  function EffectiveDeadline(c: Session, st: State): Instant {
    if st.turnId.Some? then c.workDeadline else c.deadline
  }

  /** The checks at the head of the loop, in order. */
  function HeadCheck(c: Session, st: State, now: Instant): Option<End> {
    if st.turnId.None? && now >= c.ackDeadline then Some(AckTimeout)
    else if now >= EffectiveDeadline(c, st) then Some(DeadlineExceeded)
    else if now >= st.lastActivity + c.requestTimeout then Some(IdleTimeout)
    else None
  }

  function Earlier(a: Instant, b: Instant): Instant {
    if a <= b then a else b
  }

  /** How long one read may wait. */
  function ReadLimit(c: Session, st: State): Instant {
    var limit := EffectiveDeadline(c, st);
    var limit1 := if st.turnId.None? then Earlier(limit, c.ackDeadline) else limit;
    Earlier(limit1, st.lastActivity + c.requestTimeout)
  }

  datatype Read =
    | TimedOut
    | Closed
    | Broken
    | NotText
    | NotJson
    | Text(frame: Frame)

  /** One pass: the instant at the head, the outcome of the read and when it came, and what a
      drain after the deadline would bring. */
  datatype Pass = Pass(headAt: Instant, read: Read, readAt: Instant, drain: Drain)

  /** The frame that ended the drain, if any, and the content collected by then. */
  datatype Drain = Drain(reply: Option<Frame>, content: string)

  predicate ConfirmsInterrupt(f: Frame) {
    f.verb.NoMethod? && f.id == Number(9001) && !f.hasError && f.hasResult
  }

  predicate ConfirmsEnd(threadId: string, turnId: string, f: Frame) {
    && f.verb.TurnCompleted?
    && f.threadId == Str(threadId)
    && f.turnDotId.OrElse(f.turnIdField) == Str(turnId)
    && !f.status.Unsettled?
  }

  /** The drain after the work deadline: it may release ownership and may still deliver. */
  function AfterDeadline(c: Session, st: State, active: Active, d: Drain): Verdict {
    if st.turnId.None? || d.reply.None? then Verdict(st, active, Some(DeadlineExceeded))
    else
      var f := d.reply.value;
      var active' := if ConfirmsInterrupt(f) || ConfirmsEnd(c.threadId, st.turnId.value, f) then active - {c.key} else active;
      if !f.status.Completed? || (d.content == "" && st.toolCalls == 0) then Verdict(st, active', Some(DeadlineExceeded))
      else if CutByStreamRule(d.content) then Verdict(st, active', Some(StreamRule))
      else
        var text := c.scrub(d.content);
        if c.isSilence(text) then Verdict(st, active', Some(Silent))
        else if c.suppressEmission then Verdict(st, active', Some(Delivered))
        else Verdict(st.Emit(c.render(text, st.toolCalls, st.toolCounts), true), active', Some(Delivered))
  }

  /** The pass brings a frame to the handler: no deadline stops it first. */
  predicate ReachesHandler(c: Session, st: State, p: Pass) {
    && p.read.Text?
    && HeadCheck(c, st, p.headAt).None?
    && (p.read.frame.verb.TurnCompleted? || p.readAt < EffectiveDeadline(c, st))
  }

  function Iterate(c: Session, st: State, active: Active, p: Pass): Verdict {
    var stop := HeadCheck(c, st, p.headAt);
    if stop == Some(DeadlineExceeded) then AfterDeadline(c, st, active, p.drain)
    else if stop.Some? then Verdict(st, active, stop)
    else match p.read
      case TimedOut => Verdict(st, active, None)
      case Closed => Verdict(st, active, Some(Disconnected))
      case Broken => Verdict(st, active, Some(SocketError))
      case NotText => Verdict(st, active, if p.readAt >= EffectiveDeadline(c, st) then Some(DeadlineExceeded) else None)
      case NotJson => Verdict(st.(lastActivity := p.readAt), active, Some(InvalidJson))
      case Text(f) =>
        var st1 := st.(lastActivity := p.readAt);
        if !f.verb.TurnCompleted? && p.readAt >= EffectiveDeadline(c, st)
        then Verdict(st1, active, Some(DeadlineExceeded))
        else Handle(c, st1, active, f, p.readAt)
  }

  function Initial(now: Instant): State {
    State(None, "", 0, map[], {}, 0, [], now)
  }

  /** The loop: passes until one ends the turn. */
  function RunLoop(c: Session, st: State, active: Active, passes: seq<Pass>): Verdict
    decreases |passes|
  {
    if passes == [] then Verdict(st, active, None)
    else
      var v := Iterate(c, st, active, passes[0]);
      if v.end.Some? then v else RunLoop(c, v.state, v.active, passes[1..])
  }

  // ---------------------------------------------------------------------
  // Submission and cancellation.
  // ---------------------------------------------------------------------

  predicate IsStale(age: int, totalTimeout: int) {
    age > totalTimeout + ACTIVE_TURN_STALE_MARGIN
  }

  /** A submission may be written: nothing is recorded for the session, or what is recorded
      is too old to be alive. */
  predicate MaySubmit(active: Active, key: Key, now: Instant, totalTimeout: int) {
    key !in active || IsStale(now - active[key].insertedAt, totalTimeout)
  }

  /** A submission is written if and only if nothing is recorded for the session, or what is
      recorded is older than the total timeout and ten minutes. */
  lemma SubmitsIff(active: Active, key: Key, now: Instant, totalTimeout: int)
    ensures MaySubmit(active, key, now, totalTimeout)
            <==> (key in active ==> now - active[key].insertedAt > totalTimeout + 600 * SECOND)
  {
  }

  /** What answers a cancellation for the turn `turn`. */
  predicate AcknowledgesCancel(turn: ActiveTurn, f: Frame) {
    turn.turnId.Some? && (ConfirmsInterrupt(f) || ConfirmsEnd(turn.threadId, turn.turnId.value, f))
  }

  class OmoBackend {
    var activeTurns: Active

    /** Records the submission and writes `turn/start`; `sent` says whether the write succeeded. */
    method Submit(c: Session, now: Instant, totalTimeout: int, sent: bool) returns (written: bool)
      modifies this
      ensures written == MaySubmit(old(activeTurns), c.key, now, totalTimeout)
      ensures written <==> c.key !in old(activeTurns) || now - old(activeTurns)[c.key].insertedAt > totalTimeout + 600 * SECOND
      ensures !written ==> activeTurns == old(activeTurns)
      ensures written && sent ==> activeTurns == old(activeTurns)[c.key := ActiveTurn(c.threadId, None, now)]
      ensures written && !sent ==> activeTurns == old(activeTurns) - {c.key}
    {
      if c.key in activeTurns {
        var age := now - activeTurns[c.key].insertedAt;
        if !IsStale(age, totalTimeout) {
          return false;
        }
      }
      activeTurns := activeTurns[c.key := ActiveTurn(c.threadId, None, now)];
      if !sent {
        activeTurns := activeTurns - {c.key};
      }
      return true;
    }

    /** The frame loop; the turn is still running when the passes run out. */
    method ExecuteTurn(c: Session, submittedAt: Instant, passes: seq<Pass>) returns (state: State, end: Option<End>)
      modifies this
      ensures Verdict(state, activeTurns, end) == RunLoop(c, Initial(submittedAt), old(activeTurns), passes)
    {
      state, end := Initial(submittedAt), None;
      var i := 0;
      while i < |passes|
        invariant i <= |passes|
        invariant RunLoop(c, state, activeTurns, passes[i..]) == RunLoop(c, Initial(submittedAt), old(activeTurns), passes)
        invariant end.None?
      {
        var v := Iterate(c, state, activeTurns, passes[i]);
        assert passes[i..][1..] == passes[i + 1..];
        state, activeTurns, end := v.state, v.active, v.end;
        if end.Some? {
          return;
        }
        i := i + 1;
      }
    }

    /** Removes the cancelled turn's entry once its end is acknowledged, unless the entry is
        another one by then. */
    method FinishCancel(key: Key, turn: ActiveTurn, reply: Option<Frame>) returns (confirmed: bool)
      modifies this
      ensures confirmed == (reply.Some? && AcknowledgesCancel(turn, reply.value))
      ensures confirmed <==>
                && reply.Some? && turn.turnId.Some?
                && var f := reply.value;
                || (f.verb.NoMethod? && f.id == Number(9001) && !f.hasError && f.hasResult)
                || (&& f.verb.TurnCompleted? && f.threadId == Str(turn.threadId)
                    && (if f.turnDotId.Absent? then f.turnIdField else f.turnDotId) == Str(turn.turnId.value)
                    && (f.status.Interrupted? || f.status.Completed? || f.status.Failed?))
      ensures activeTurns ==
                if confirmed && key in old(activeTurns) && old(activeTurns)[key] == turn
                then old(activeTurns) - {key} else old(activeTurns)
    {
      confirmed := reply.Some? && AcknowledgesCancel(turn, reply.value);
      if confirmed {
        if key in activeTurns && activeTurns[key] == turn {
          activeTurns := activeTurns - {key};
        }
      }
    }
  }
}
