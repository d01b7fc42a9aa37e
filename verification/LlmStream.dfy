/** The streaming reader of provider responses: bytes arrive in arbitrary chunks and
    leave as lines for the event parser. */
module LlmStream {
  import opened Common
  import opened Utf8

  // ---------------------------------------------------------------------
  // What one decoding pass takes out of the pending bytes.
  // ---------------------------------------------------------------------

  datatype Drained = Drained(text: string, rest: seq<Byte>)

  function Drain(s: seq<Byte>): Drained
    decreases |s|
  {
    if s == [] then Drained("", [])
    else match Look(s)
      case Cut => Drained("", s)
      case Bad(n) =>
        LookMeaning(s);
        var d := Drain(s[n..]);
        Drained([REPLACEMENT] + d.text, d.rest)
      case Good(n) =>
        LookMeaning(s);
        var d := Drain(s[n..]);
        Drained([ScalarOf(s[..n])] + d.text, d.rest)
  }

  /** The whole text: what was decoded, and one replacement character for a truncated end. */
  function LossyText(s: seq<Byte>): string {
    var d := Drain(s);
    d.text + if d.rest == [] then "" else [REPLACEMENT]
  }

  lemma {:induction false} RestIsShort(s: seq<Byte>)
    ensures |Drain(s).rest| <= 3
    ensures Drain(s).rest != [] ==> Look(Drain(s).rest).Cut?
    decreases |s|
  {
    if s != [] {
      LookMeaning(s);
      if !Look(s).Cut? {
        RestIsShort(s[Look(s).len..]);
      }
    }
  }

  lemma GoodStep(s: seq<Byte>, n: nat, text: string)
    requires 0 < n <= |s| && WellFormed(s[..n]) && LossyDecoding(s[n..], text)
    ensures LossyDecoding(s, [ScalarOf(s[..n])] + text)
  {
    assert ([ScalarOf(s[..n])] + text)[1..] == text;
  }

  lemma BadStep(s: seq<Byte>, n: nat, text: string)
    requires n <= |s| && IllFormedStart(s) && IsMaximalSubpart(s, n) && LossyDecoding(s[n..], text)
    ensures LossyDecoding(s, [REPLACEMENT] + text)
  {
    assert ([REPLACEMENT] + text)[1..] == text;
  }

  lemma LossyTextUnfolds(s: seq<Byte>)
    requires s != []
    ensures match Look(s)
            case Cut => LossyText(s) == [REPLACEMENT]
            case Bad(n) => n <= |s| && LossyText(s) == [REPLACEMENT] + LossyText(s[n..])
            case Good(n) => n <= |s| && WellFormed(s[..n]) && LossyText(s) == [ScalarOf(s[..n])] + LossyText(s[n..])
  {
    LookMeaning(s);
  }

  /** Decoding a whole input at once is what the standard calls lossy decoding ... */
  lemma {:induction false} LossyTextIsLossy(s: seq<Byte>)
    ensures LossyDecoding(s, LossyText(s))
    decreases |s|
  {
    if s != [] {
      LookMeaning(s);
      LossyTextUnfolds(s);
      match Look(s)
      case Cut =>
        assert s[|s|..] == [] && LossyDecoding([], "");
        BadStep(s, |s|, "");
        assert [REPLACEMENT] + "" == [REPLACEMENT];
      case Bad(n) =>
        LossyTextIsLossy(s[n..]);
        BadStep(s, n, LossyText(s[n..]));
      case Good(n) =>
        LossyTextIsLossy(s[n..]);
        GoodStep(s, n, LossyText(s[n..]));
    }
  }

  lemma GoodIsForced(s: seq<Byte>, t: string)
    requires s != [] && Look(s).Good? && LossyDecoding(s, t)
    ensures var n := Look(s).len;
            n <= |s| && WellFormed(s[..n]) && t != "" && t[0] == ScalarOf(s[..n]) && LossyDecoding(s[n..], t[1..])
  {
    LookMeaning(s);
    var n := Look(s).len;
    assert !IllFormedStart(s);
    var k :| 0 < k <= |s| && WellFormed(s[..k]) && t[0] == ScalarOf(s[..k]) && LossyDecoding(s[k..], t[1..]);
    WellFormedIsPrefixFree(s, k, n);
  }

  lemma BadIsForced(s: seq<Byte>, n: nat, t: string)
    requires s != [] && !Look(s).Good? && n == (if Look(s).Cut? then |s| else Look(s).len) && LossyDecoding(s, t)
    ensures n <= |s| && t != "" && t[0] == REPLACEMENT && LossyDecoding(s[n..], t[1..])
  {
    LookMeaning(s);
    var k: nat :| IsMaximalSubpart(s, k) && LossyDecoding(s[k..], t[1..]);
    assert Extendable(s[..n]) || n == 1;
    assert k == n;
  }

  /** How many bytes the first character takes, and which one it is. */
  function FirstLen(s: seq<Byte>): (n: nat)
    requires s != []
    ensures 0 < n <= |s|
  {
    LookMeaning(s);
    if Look(s).Cut? then |s| else Look(s).len
  }

  function FirstOf(s: seq<Byte>): char
    requires s != []
  {
    LookMeaning(s);
    if Look(s).Good? then ScalarOf(s[..Look(s).len]) else REPLACEMENT
  }

  lemma FirstIsForced(s: seq<Byte>, t: string)
    requires s != [] && LossyDecoding(s, t)
    ensures t != "" && t[0] == FirstOf(s) && LossyDecoding(s[FirstLen(s)..], t[1..])
  {
    if Look(s).Good? {
      GoodIsForced(s, t);
    } else {
      BadIsForced(s, FirstLen(s), t);
    }
  }

  /** ... and those rules leave no choice. */
  lemma {:induction false} LossyIsDetermined(s: seq<Byte>, t: string, u: string)
    requires LossyDecoding(s, t) && LossyDecoding(s, u)
    ensures t == u
    decreases |s|
  {
    if s != [] {
      FirstIsForced(s, t);
      FirstIsForced(s, u);
      LossyIsDetermined(s[FirstLen(s)..], t[1..], u[1..]);
      assert t == [t[0]] + t[1..] && u == [u[0]] + u[1..];
    }
  }

  lemma WellFormedIsPrefixFree(s: seq<Byte>, k: nat, n: nat)
    requires 0 < k <= |s| && 0 < n <= |s| && WellFormed(s[..k]) && WellFormed(s[..n])
    ensures k == n
  {
    assert s[..k][0] == s[0] && s[..n][0] == s[0];
  }

  // ---------------------------------------------------------------------
  // Chunk boundaries.
  // ---------------------------------------------------------------------

  lemma DrainUnfolds(s: seq<Byte>)
    requires s != [] && !Look(s).Cut?
    ensures var n := Look(s).len;
            n <= |s| && Drain(s) == Drained([FirstOf(s)] + Drain(s[n..]).text, Drain(s[n..]).rest)
  {
    LookMeaning(s);
  }

  lemma FirstCharIsStable(s: seq<Byte>, t: seq<Byte>)
    requires s != [] && !Look(s).Cut?
    ensures Look(s + t) == Look(s) && Look(s).len <= |s| && FirstOf(s + t) == FirstOf(s)
    ensures (s + t)[Look(s).len..] == s[Look(s).len..] + t
  {
    LookIsStable(s, t);
  }

  /** Decoding may stop anywhere and resume with the bytes it kept. */
  lemma {:induction false} DrainResumes(s: seq<Byte>, t: seq<Byte>)
    ensures var d := Drain(s);
            var e := Drain(d.rest + t);
            Drain(s + t) == Drained(d.text + e.text, e.rest)
    decreases |s|
  {
    if s == [] {
      assert s + t == t == [] + t;
    } else if Look(s).Cut? {
      assert Drain(s) == Drained("", s);
    } else {
      var tail := s[Look(s).len..];
      DrainUnfolds(s);
      FirstCharIsStable(s, t);
      DrainUnfolds(s + t);
      LookMeaning(s);
      DrainResumes(tail, t);
      ConcatAssoc([FirstOf(s)], Drain(tail).text, Drain(Drain(tail).rest + t).text);
    }
  }

  lemma {:induction false} DrainOfValid(s: seq<Byte>)
    requires FromUtf8(s).Valid?
    ensures Drain(s) == Drained(FromUtf8(s).text, [])
    decreases |s|
  {
    if s != [] {
      LookMeaning(s);
      DrainOfValid(s[Look(s).len..]);
    }
  }

  /** The first `v` bytes are valid and decode separately from the rest. */
  ghost predicate SplitsAt(s: seq<Byte>, v: nat) {
    && v < |s|
    && FromUtf8(s[..v]).Valid?
    && Drain(s) == Drained(FromUtf8(s[..v]).text + Drain(s[v..]).text, Drain(s[v..]).rest)
  }

  lemma SplitsLater(s: seq<Byte>, n: nat, v: nat)
    requires s != [] && Look(s) == Good(n) && n <= |s| && SplitsAt(s[n..], v)
    ensures SplitsAt(s, n + v)
  {
    LookMeaning(s);
    FromUtf8OfPrefix(s, n, v);
    assert s[n..][v..] == s[n + v..];
    ConcatAssoc([ScalarOf(s[..n])], FromUtf8(s[n..][..v]).text, Drain(s[n + v..]).text);
  }

  ghost predicate FailsAt(s: seq<Byte>, v: nat, errorLen: Option<nat>) {
    SplitsAt(s, v) && Look(s[v..]) == (match errorLen case None => Cut case Some(n) => Bad(n))
  }

  lemma FailsAtOnce(s: seq<Byte>)
    requires s != [] && !Look(s).Good?
    ensures FailsAt(s, 0, FromUtf8(s).errorLen) && FromUtf8(s).validUpTo == 0
  {
    assert s[0..] == s && s[..0] == [];
  }

  lemma FailsLater(s: seq<Byte>, n: nat, v: nat, errorLen: Option<nat>)
    requires s != [] && Look(s) == Good(n) && n <= |s| && FailsAt(s[n..], v, errorLen)
    ensures FailsAt(s, n + v, errorLen)
  {
    SplitsLater(s, n, v);
    assert s[n..][v..] == s[n + v..];
  }

  /** A decoding pass in the validator's terms: the valid part is copied through, and
      decoding goes on behind it. */
  lemma {:induction false} DrainOfError(s: seq<Byte>)
    requires FromUtf8(s).Error?
    ensures FailsAt(s, FromUtf8(s).validUpTo, FromUtf8(s).errorLen)
    decreases |s|
  {
    LookMeaning(s);
    if Look(s).Good? {
      var n := Look(s).len;
      DrainOfError(s[n..]);
      FailsLater(s, n, FromUtf8(s[n..]).validUpTo, FromUtf8(s[n..]).errorLen);
    } else {
      FailsAtOnce(s);
    }
  }

  lemma FromUtf8OfPrefix(s: seq<Byte>, n: nat, v: nat)
    requires s != [] && Look(s) == Good(n) && n + v <= |s| && FromUtf8(s[n..][..v]).Valid?
    ensures WellFormed(s[..n])
    ensures FromUtf8(s[..n + v]) == Valid([ScalarOf(s[..n])] + FromUtf8(s[n..][..v]).text)
  {
    LookMeaning(s);
    var p := s[..n + v];
    assert Look(p) == Good(n);
    assert p[..n] == s[..n] && p[n..] == s[n..][..v];
  }

  function Flatten(chunks: seq<seq<Byte>>): seq<Byte> {
    if chunks == [] then [] else Flatten(chunks[..|chunks| - 1]) + chunks[|chunks| - 1]
  }

  // ---------------------------------------------------------------------
  // Lines.
  // ---------------------------------------------------------------------

  /** The text between newlines; always at least one piece. */
  function Pieces(text: string): (r: seq<string>)
    ensures r != []
  {
    if '\n' !in text then [text]
    else var i := IndexOfNewline(text); [text[..i]] + Pieces(text[i + 1..])
  }

  function IndexOfNewline(text: string): (i: nat)
    requires '\n' in text
    ensures i < |text| && text[i] == '\n' && '\n' !in text[..i]
  {
    if text[0] == '\n' then 0 else 1 + IndexOfNewline(text[1..])
  }

  function Join(pieces: seq<string>): string
    requires pieces != []
  {
    if |pieces| == 1 then pieces[0] else pieces[0] + "\n" + Join(pieces[1..])
  }

  function Last<T>(s: seq<T>): T
    requires s != []
  {
    s[|s| - 1]
  }

  function AllButLast<T>(s: seq<T>): seq<T>
    requires s != []
  {
    s[..|s| - 1]
  }

  lemma LastOfPrepend<T>(x: T, s: seq<T>)
    requires s != []
    ensures Last([x] + s) == Last(s) && AllButLast([x] + s) == [x] + AllButLast(s)
  {
  }

  /** The pieces are the text: nothing is lost, and no piece spans a newline. */
  lemma {:induction false} PiecesPartition(text: string)
    ensures Join(Pieces(text)) == text
    ensures forall p :: p in Pieces(text) ==> '\n' !in p
    decreases |text|
  {
    if '\n' in text {
      var i := IndexOfNewline(text);
      PiecesPartition(text[i + 1..]);
      assert Pieces(text)[1..] == Pieces(text[i + 1..]);
      assert text == text[..i] + "\n" + text[i + 1..];
    }
  }

  lemma NewlineIsFirst(text: string, i: nat)
    requires i < |text| && text[i] == '\n' && '\n' !in text[..i]
    ensures '\n' in text && IndexOfNewline(text) == i
  {
    var j := IndexOfNewline(text);
    assert forall k :: 0 <= k < i ==> text[k] == text[..i][k];
    assert forall k :: 0 <= k < j ==> text[k] == text[..j][k];
  }

  lemma PiecesUnfold(text: string, i: nat)
    requires i < |text| && text[i] == '\n' && '\n' !in text[..i]
    ensures Pieces(text) == [text[..i]] + Pieces(text[i + 1..])
    ensures AllButLast(Pieces(text)) == [text[..i]] + AllButLast(Pieces(text[i + 1..]))
    ensures Last(Pieces(text)) == Last(Pieces(text[i + 1..]))
  {
    NewlineIsFirst(text, i);
    LastOfPrepend(text[..i], Pieces(text[i + 1..]));
  }

  /** Splitting may stop anywhere and resume with the last piece. */
  lemma {:induction false} PiecesResume(a: string, b: string)
    ensures Pieces(a + b) == AllButLast(Pieces(a)) + Pieces(Last(Pieces(a)) + b)
    decreases |a|
  {
    if '\n' !in a {
      assert AllButLast(Pieces(a)) == [];
      assert [] + Pieces(a + b) == Pieces(a + b);
    } else {
      var i := IndexOfNewline(a);
      var rest := a[i + 1..];
      assert (a + b)[i + 1..] == rest + b && (a + b)[..i] == a[..i];
      PiecesUnfold(a, i);
      PiecesUnfold(a + b, i);
      PiecesResume(rest, b);
      var head, mid, tail := [a[..i]], AllButLast(Pieces(rest)), Pieces(Last(Pieces(rest)) + b);
      ConcatAssoc(head, mid, tail);
    }
  }

  function TrimEndCr(line: string): string {
    if line != [] && line[|line| - 1] == '\r' then TrimEndCr(line[..|line| - 1]) else line
  }

  function Trim(s: string): string {
    if s == [] then s
    else if IsWhitespace(s[0]) then Trim(s[1..])
    else if IsWhitespace(s[|s| - 1]) then Trim(s[..|s| - 1])
    else s
  }

  function TrimAll(pieces: seq<string>): seq<string> {
    seq(|pieces|, i requires 0 <= i < |pieces| => TrimEndCr(pieces[i]))
  }

  lemma TrimAllPrepend(piece: string, pieces: seq<string>)
    ensures TrimAll([piece] + pieces) == [TrimEndCr(piece)] + TrimAll(pieces)
  {
  }

  lemma TrimAllConcat(a: seq<string>, b: seq<string>)
    ensures TrimAll(a + b) == TrimAll(a) + TrimAll(b)
  {
  }

  /** The lines handed to the event parser for a complete response text. */
  function HandedLines(text: string): seq<string> {
    var pieces := Pieces(text);
    var last := Trim(Last(pieces));
    TrimAll(AllButLast(pieces)) + if last == [] then [] else [last]
  }

  /** `line` is `piece` without the carriage returns at its end. */
  predicate IsCutCr(piece: string, line: string) {
    && line <= piece
    && (line == "" || line[|line| - 1] != '\r')
    && forall i :: |line| <= i < |piece| ==> piece[i] == '\r'
  }

  lemma {:induction false} TrimEndCrMeaning(piece: string)
    ensures IsCutCr(piece, TrimEndCr(piece))
  {
    if piece != [] && piece[|piece| - 1] == '\r' {
      TrimEndCrMeaning(piece[..|piece| - 1]);
    }
  }

  /** `line` is `piece` without its outer whitespace. */
  ghost predicate IsStripped(piece: string, line: string) {
    && line != "" && !IsWhitespace(line[0]) && !IsWhitespace(line[|line| - 1])
    && exists before, after :: IsPadded(piece, before, line, after)
  }

  predicate IsPadded(piece: string, before: string, line: string, after: string) {
    piece == before + line + after && AllSpace(before) && AllSpace(after)
  }

  lemma PadFront(piece: string, line: string)
    requires piece != [] && IsWhitespace(piece[0]) && IsStripped(piece[1..], line)
    ensures IsStripped(piece, line)
  {
    var before, after :| IsPadded(piece[1..], before, line, after);
    assert piece == [piece[0]] + piece[1..];
    assert IsPadded(piece, [piece[0]] + before, line, after);
  }

  lemma PadBack(piece: string, line: string)
    requires piece != [] && IsWhitespace(piece[|piece| - 1]) && IsStripped(piece[..|piece| - 1], line)
    ensures IsStripped(piece, line)
  {
    var n := |piece| - 1;
    var before, after :| IsPadded(piece[..n], before, line, after);
    assert piece == piece[..n] + [piece[n]];
    assert IsPadded(piece, before, line, after + [piece[n]]);
  }

  lemma SpaceFront(piece: string)
    requires piece != [] && IsWhitespace(piece[0])
    ensures AllSpace(piece) <==> AllSpace(piece[1..])
  {
    if AllSpace(piece[1..]) {
      forall i | 0 <= i < |piece| ensures IsWhitespace(piece[i]) {
        assert i > 0 ==> piece[i] == piece[1..][i - 1];
      }
    }
  }

  lemma {:induction false} TrimMeaning(piece: string)
    ensures AllSpace(piece) ==> Trim(piece) == ""
    ensures !AllSpace(piece) ==> IsStripped(piece, Trim(piece))
    decreases |piece|
  {
    if piece != [] {
      var n := |piece| - 1;
      if IsWhitespace(piece[0]) {
        SpaceFront(piece);
        TrimMeaning(piece[1..]);
        if !AllSpace(piece) {
          PadFront(piece, Trim(piece[1..]));
        }
      } else if IsWhitespace(piece[n]) {
        TrimMeaning(piece[..n]);
        assert piece[..n][0] == piece[0];
        PadBack(piece, Trim(piece[..n]));
      } else {
        NotPadded(piece);
      }
    }
  }

  lemma NotPadded(piece: string)
    requires piece != [] && !IsWhitespace(piece[0]) && !IsWhitespace(piece[|piece| - 1])
    ensures IsStripped(piece, piece)
  {
    assert IsPadded(piece, "", piece, "");
  }

  /** The lines of a text: every stretch that a newline ends, without carriage returns at its end,
      and the stretch after the last newline, without outer whitespace, unless it is blank. */
  ghost predicate AreLines(text: string, lines: seq<string>) {
    var pieces := Pieces(text);
    var n := |pieces| - 1;
    && |lines| == n + (if AllSpace(pieces[n]) then 0 else 1)
    && (forall k :: 0 <= k < n ==> IsCutCr(pieces[k], lines[k]))
    && (!AllSpace(pieces[n]) ==> IsStripped(pieces[n], lines[n]))
  }

  lemma HandedMeaning(text: string)
    ensures AreLines(text, HandedLines(text))
  {
    var pieces := Pieces(text);
    var n := |pieces| - 1;
    TrimMeaning(pieces[n]);
    forall k | 0 <= k < n ensures IsCutCr(pieces[k], HandedLines(text)[k]) {
      TrimEndCrMeaning(pieces[k]);
    }
  }

  // ---------------------------------------------------------------------
  // The reader.
  // ---------------------------------------------------------------------

  class StreamTask {
    var pending: seq<Byte>
    var buffer: string
    var lines: seq<string>

    /** The state depends on the bytes seen so far and not on how they were cut. */
    ghost predicate Seen(bytes: seq<Byte>)
      reads this
    {
      var d := Drain(bytes);
      && pending == d.rest
      && buffer == Last(Pieces(d.text))
      && lines == TrimAll(AllButLast(Pieces(d.text)))
    }

    constructor ()
      ensures Seen([])
    {
      pending, buffer, lines := [], "", [];
    }

    method DecodeStreamBytes()
      modifies this`pending, this`buffer
      ensures buffer == old(buffer) + Drain(old(pending)).text
      ensures pending == Drain(old(pending)).rest
    {
      while true
        invariant buffer + Drain(pending).text == old(buffer) + Drain(old(pending)).text
        invariant Drain(pending).rest == Drain(old(pending)).rest
        decreases |pending|
      {
        var check := FromUtf8(pending);
        if check.Valid? {
          DrainOfValid(pending);
          buffer := buffer + check.text;
          pending := [];
          return;
        }
        DrainOfError(pending);
        var valid := check.validUpTo;
        var copied := FromUtf8(pending[..valid]);
        ghost var tail := pending[valid..];
        LookMeaning(tail);
        ghost var rest := Drain(tail);
        if copied.Valid? {
          ConcatAssoc(buffer, copied.text, rest.text);
          buffer := buffer + copied.text;
        }
        match check.errorLen {
          case Some(length) =>
            ghost var behind := Drain(tail[length..]);
            ConcatAssoc(buffer, [REPLACEMENT], behind.text);
            assert tail[length..] == pending[valid + length..];
            buffer := buffer + [REPLACEMENT];
            pending := pending[valid + length..];
          case None =>
            pending := pending[valid..];
            return;
        }
      }
    }

    method TakeLines()
      modifies this`buffer, this`lines
      ensures lines == old(lines) + TrimAll(AllButLast(Pieces(old(buffer))))
      ensures buffer == Last(Pieces(old(buffer)))
    {
      while '\n' in buffer
        invariant lines + TrimAll(AllButLast(Pieces(buffer))) == old(lines) + TrimAll(AllButLast(Pieces(old(buffer))))
        invariant Last(Pieces(buffer)) == Last(Pieces(old(buffer)))
        decreases |buffer|
      {
        var i := IndexOfNewline(buffer);
        PiecesUnfold(buffer, i);
        ghost var later := AllButLast(Pieces(buffer[i + 1..]));
        TrimAllPrepend(buffer[..i], later);
        ConcatAssoc(lines, [TrimEndCr(buffer[..i])], TrimAll(later));
        lines := lines + [TrimEndCr(buffer[..i])];
        buffer := buffer[i + 1..];
      }
      assert TrimAll(AllButLast(Pieces(buffer))) == [];
    }

    method Feed(chunk: seq<Byte>, ghost seen: seq<Byte>)
      requires Seen(seen)
      modifies this
      ensures Seen(seen + chunk)
    {
      FeedText(seen, chunk);
      pending := pending + chunk;
      DecodeStreamBytes();
      TakeLines();
    }

    method Finish(ghost seen: seq<Byte>)
      requires Seen(seen)
      modifies this
      ensures lines == HandedLines(LossyText(seen))
    {
      FinalText(seen);
      if pending != [] {
        buffer := buffer + LossyText(pending);
      }
      var last := Trim(buffer);
      if last != [] {
        lines := lines + [last];
      } else {
        assert lines + [] == lines;
      }
    }
  }

  lemma MoreLines(a: string, b: string)
    ensures var done, later := AllButLast(Pieces(a)), Pieces(Last(Pieces(a)) + b);
            && Last(Pieces(a + b)) == Last(later)
            && TrimAll(AllButLast(Pieces(a + b))) == TrimAll(done) + TrimAll(AllButLast(later))
  {
    var done, later := AllButLast(Pieces(a)), Pieces(Last(Pieces(a)) + b);
    PiecesResume(a, b);
    assert AllButLast(done + later) == done + AllButLast(later);
    TrimAllConcat(done, AllButLast(later));
  }

  /** What a further chunk adds to text and lines. */
  lemma FeedText(seen: seq<Byte>, chunk: seq<Byte>)
    ensures var before, after := Drain(seen), Drain(seen + chunk);
            var added := Drain(before.rest + chunk);
            var done, later := AllButLast(Pieces(before.text)), Pieces(Last(Pieces(before.text)) + added.text);
            && after.rest == added.rest
            && Last(Pieces(after.text)) == Last(later)
            && TrimAll(AllButLast(Pieces(after.text))) == TrimAll(done) + TrimAll(AllButLast(later))
  {
    DrainResumes(seen, chunk);
    MoreLines(Drain(seen).text, Drain(Drain(seen).rest + chunk).text);
  }

  /** Flushing the truncated end adds no newline, so it only lengthens the last piece. */
  lemma FinalText(bytes: seq<Byte>)
    ensures var d := Drain(bytes);
            var text := LossyText(bytes);
            && AllButLast(Pieces(text)) == AllButLast(Pieces(d.text))
            && Last(Pieces(text)) == if d.rest == [] then Last(Pieces(d.text)) else Last(Pieces(d.text)) + LossyText(d.rest)
  {
    var d := Drain(bytes);
    RestIsShort(bytes);
    if d.rest == [] {
      assert LossyText(bytes) == d.text;
    } else {
      assert LossyText(d.rest) == [REPLACEMENT];
      PiecesPartition(d.text);
      PiecesResume(d.text, [REPLACEMENT]);
      var last := Last(Pieces(d.text)) + [REPLACEMENT];
      assert '\n' !in last;
      assert Pieces(last) == [last];
    }
  }

  /** Whatever the cuts, the parser gets the lines of the lossily decoded response. */
  method StreamLines(chunks: seq<seq<Byte>>) returns (lines: seq<string>)
    ensures lines == HandedLines(LossyText(Flatten(chunks)))
    ensures exists text :: LossyDecoding(Flatten(chunks), text) && AreLines(text, lines)
  {
    LossyTextIsLossy(Flatten(chunks));
    HandedMeaning(LossyText(Flatten(chunks)));
    var task := new StreamTask();
    for i := 0 to |chunks|
      invariant task.Seen(Flatten(chunks[..i]))
    {
      assert chunks[..i + 1][..i] == chunks[..i];
      task.Feed(chunks[i], Flatten(chunks[..i]));
    }
    assert chunks[..|chunks|] == chunks;
    task.Finish(Flatten(chunks));
    lines := task.lines;
  }

  /** At every moment of every run the reader keeps at most three undecoded bytes, and
      its decoded text plus one final flush is the lossy decoding of what arrived. */
  lemma ChunkedDecoding(chunks: seq<seq<Byte>>, text: string)
    requires LossyDecoding(Flatten(chunks), text)
    ensures text == LossyText(Flatten(chunks))
    ensures |Drain(Flatten(chunks)).rest| <= 3
  {
    LossyTextIsLossy(Flatten(chunks));
    LossyIsDetermined(Flatten(chunks), text, LossyText(Flatten(chunks)));
    RestIsShort(Flatten(chunks));
  }

  /** A valid response survives any cutting: the text comes out as it was sent. */
  lemma ValidTextSurvives(chunks: seq<seq<Byte>>, text: string)
    requires Flatten(chunks) == Encode(text)
    ensures LossyText(Flatten(chunks)) == text
  {
    FromUtf8OfEncode(text);
    DrainOfValid(Encode(text));
  }
}
