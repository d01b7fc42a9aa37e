/** Session keys as stored: length-prefixed components joined by bars, and the two parsers that
    read them back. Strings are their UTF-8 bytes. */
module StorageKey {
  import opened Common
  import opened Utf8

  const USIZE_LIMIT: nat := 0x1_0000_0000_0000_0000

  const BAR: Byte := 124
  const COLON: Byte := 58
  const DASH: Byte := 45
  const PLUS: Byte := 43
  const ZERO: Byte := 48

  /** What the type of strings guarantees: valid UTF-8 that fits the address space. */
  predicate IsStr(s: seq<Byte>) {
    FromUtf8(s).Valid? && |s| < USIZE_LIMIT / 2
  }

  type Component = Option<seq<Byte>>

  predicate IsText(v: Component) {
    v.Some? ==> IsStr(v.value)
  }

  datatype SessionKey = SessionKey(
    platform: seq<Byte>,
    guild: Component,
    channel: seq<Byte>,
    thread: Component,
    user: seq<Byte>,
    bot: Component)
  {
    predicate IsKey() {
      IsStr(platform) && IsText(guild) && IsStr(channel) && IsText(thread) && IsStr(user) && IsText(bot)
    }

    /** Guild lanes are shared: they carry no sender. */
    function Canonical(): SessionKey {
      if guild.Some? then this.(user := []) else this
    }
  }

  // ---------------------------------------------------------------------
  // Writing.
  // ---------------------------------------------------------------------

  function Decimal(n: nat): seq<Byte> {
    if n < 10 then [ZERO + n] else Decimal(n / 10) + [ZERO + n % 10]
  }

  function Written(v: Component): seq<Byte> {
    if v.Some? then Decimal(|v.value|) + [COLON] + v.value else [DASH]
  }

  function Joined(values: seq<Component>): seq<Byte>
    requires values != []
  {
    Written(values[0]) + if |values| == 1 then [] else [BAR] + Joined(values[1..])
  }

  function Components(k: SessionKey): seq<Component> {
    [Some(k.platform), k.guild, Some(k.channel), k.thread, Some(if k.guild.Some? then [] else k.user)]
    + if k.bot.Some? then [k.bot] else []
  }

  function StorageKeyOf(k: SessionKey): seq<Byte> {
    Joined(Components(k))
  }

  // ---------------------------------------------------------------------
  // Reading, as the dashboard does it.
  // ---------------------------------------------------------------------

  predicate IsDigit(b: Byte) {
    ZERO <= b <= ZERO + 9
  }

  function LeadingDigits(s: seq<Byte>): (n: nat)
    ensures n <= |s| && (forall i :: 0 <= i < n ==> IsDigit(s[i])) && (n < |s| ==> !IsDigit(s[n]))
  {
    if s != [] && IsDigit(s[0]) then 1 + LeadingDigits(s[1..]) else 0
  }

  function Value(digits: seq<Byte>): int {
    if digits == [] then 0 else 10 * Value(digits[..|digits| - 1]) + digits[|digits| - 1] - ZERO
  }

  /** A string may be cut at `k`, which is not its start. */
  predicate IsBoundary(s: seq<Byte>, k: nat) {
    k == |s| || (k < |s| && !IsTail(s[k]))
  }

  datatype Read = Malformed | Got(value: Component, rest: seq<Byte>)

  /** The length prefix is `digits`; `body` is what follows the colon. */
  function ReadBody(digits: seq<Byte>, body: seq<Byte>): Read {
    var length := Value(digits);
    if 0 <= length < USIZE_LIMIT && length <= |body| && IsBoundary(body, 0) && IsBoundary(body, length)
    then Got(Some(body[..length]), body[length..]) else Malformed
  }

  function ReadComponent(s: seq<Byte>): Read {
    if s == [] then Malformed
    else if s[0] == DASH then Got(None, s[1..])
    else
      var n := LeadingDigits(s);
      if n == 0 || n == |s| || s[n] != COLON then Malformed else ReadBody(s[..n], s[n + 1..])
  }

  lemma ReadAdvances(s: seq<Byte>)
    ensures ReadComponent(s).Got? ==> |ReadComponent(s).rest| < |s|
  {
  }

  function ReadAll(s: seq<Byte>): Option<seq<Component>>
    decreases |s|
  {
    if s == [] then Some([])
    else match ReadComponent(s)
      case Malformed => None
      case Got(v, rest) =>
        if rest == [] then Some([v])
        else if rest[0] != BAR then None
        else
          ReadAdvances(s);
          match ReadAll(rest[1..])
          case None => None
          case Some(vs) => Some([v] + vs)
  }

  /** The reader stops before a bar that nothing follows. */
  predicate HasTrailingBar(s: seq<Byte>)
    decreases |s|
  {
    match ReadComponent(s)
    case Malformed => false
    case Got(_, rest) =>
      ReadAdvances(s);
      rest != [] && rest[0] == BAR && (|rest| == 1 || HasTrailingBar(rest[1..]))
  }

  function FromValues(values: seq<Component>): Option<SessionKey> {
    if |values| != 5 && |values| != 6 then None
    else if values[0].None? || values[2].None? || values[4].None? then None
    else
      Some(SessionKey(values[0].value, values[1], values[2].value, values[3], values[4].value,
                      if |values| == 6 then values[5] else None))
  }

  function Parsed(s: seq<Byte>): Option<SessionKey> {
    var values := ReadAll(s);
    if values.Some? then FromValues(values.value) else None
  }

  /** Advances over the digits at `index`. */
  method SkipDigits(input: seq<Byte>, index: nat) returns (next: nat)
    requires index <= |input|
    ensures index <= next <= |input|
    ensures LeadingDigits(input[index..]) == next - index
  {
    next := index;
    while next < |input| && IsDigit(input[next])
      invariant index <= next <= |input|
      invariant LeadingDigits(input[index..]) == next - index + LeadingDigits(input[next..])
    {
      assert input[next..][1..] == input[next + 1..];
      next := next + 1;
    }
  }

  /** Cuts the value of length `length` out of the input at `index`. */
  method ReadBodyAt(input: seq<Byte>, start: nat, index: nat) returns (read: Option<Component>, next: nat)
    requires start <= index < |input|
    ensures index <= next <= |input|
    ensures read.None? <==> ReadBody(input[start..index], input[index + 1..]).Malformed?
    ensures read.Some? ==> ReadBody(input[start..index], input[index + 1..]) == Got(read.value, input[next..]) && index < next
  {
    var length := Value(input[start..index]);
    if length < 0 || length >= USIZE_LIMIT {
      return None, index;
    }
    next := index + 1;
    var end := next + length;
    if end > |input| || !IsBoundary(input, next) || !IsBoundary(input, end) {
      return None, next;
    }
    assert input[next..][..length] == input[next..end] && input[next..][length..] == input[end..];
    read := Some(Some(input[next..end]));
    next := end;
  }

  lemma ComponentAt(input: seq<Byte>, index: nat, next: nat)
    requires index < |input| && input[index] != DASH && index <= next <= |input| && LeadingDigits(input[index..]) == next - index
    ensures ReadComponent(input[index..]) ==
              if next == index || next == |input| || input[next] != COLON then Malformed
              else ReadBody(input[index..next], input[next + 1..])
  {
    var s, n := input[index..], next - index;
    if next < |input| {
      assert s[..n] == input[index..next] && s[n + 1..] == input[next + 1..] && s[n] == input[next];
    }
  }

  /** Reads the component at `index`; `next` is where it ends. */
  method ReadComponentAt(input: seq<Byte>, index: nat) returns (read: Option<Component>, next: nat)
    requires index <= |input|
    ensures index <= next <= |input|
    ensures read.None? <==> ReadComponent(input[index..]).Malformed?
    ensures read.Some? ==> ReadComponent(input[index..]) == Got(read.value, input[next..]) && index < next
  {
    next := index;
    if index >= |input| {
      return None, next;
    }
    if input[index] == DASH {
      next := next + 1;
      return Some(None), next;
    }
    next := SkipDigits(input, index);
    ComponentAt(input, index, next);
    if next == index || next == |input| || input[next] != COLON {
      return None, next;
    }
    read, next := ReadBodyAt(input, index, next);
  }

  /** What the whole input holds if `values` are what it holds before `index`. */
  function Outcome(input: seq<Byte>, index: nat, values: seq<Component>): Option<seq<Component>>
    requires index <= |input|
  {
    Prefixed(values, ReadAll(input[index..]))
  }

  lemma NothingRead(input: seq<Byte>)
    ensures Outcome(input, 0, []) == ReadAll(input)
  {
    assert input[0..] == input;
    assert ReadAll(input).Some? ==> [] + ReadAll(input).value == ReadAll(input).value;
  }

  lemma AllRead(input: seq<Byte>, values: seq<Component>)
    ensures Outcome(input, |input|, values) == Some(values)
  {
    assert values + [] == values;
  }

  lemma NoMoreRead(input: seq<Byte>, index: nat, values: seq<Component>)
    requires index < |input| && ReadComponent(input[index..]).Malformed?
    ensures Outcome(input, index, values) == None
  {
  }

  /** One more component: the input goes on behind its bar, ends, or is malformed. */
  lemma OneMoreRead(input: seq<Byte>, index: nat, values: seq<Component>, v: Component, next: nat)
    requires index < next <= |input|
    requires ReadComponent(input[index..]) == Got(v, input[next..])
    ensures if next < |input| && input[next] != BAR then Outcome(input, index, values) == None
            else Outcome(input, if next < |input| then next + 1 else next, values + [v]) == Outcome(input, index, values)
  {
    if next < |input| {
      assert input[next..][1..] == input[next + 1..];
      PrefixedTwice(values, v, ReadAll(input[next + 1..]));
    } else {
      AllRead(input, values + [v]);
    }
  }

  /** One pass of the parser's loop: a component, and the bar after it unless the input ends. */
  method ReadNext(input: seq<Byte>, index: nat, values: seq<Component>) returns (ok: bool, read: seq<Component>, next: nat)
    requires index < |input|
    ensures !ok ==> Outcome(input, index, values) == None
    ensures ok ==> index < next <= |input| && Outcome(input, next, read) == Outcome(input, index, values)
  {
    var component;
    component, next := ReadComponentAt(input, index);
    ok, read := false, values;
    if component.None? {
      NoMoreRead(input, index, values);
    } else {
      OneMoreRead(input, index, values, component.value, next);
      read := values + [component.value];
      ok := next == |input| || input[next] == BAR;
      if next < |input| {
        next := next + 1;
      }
    }
  }

  /** The parser's loop: components with bars between them, to the end of the input. */
  method ReadValues(input: seq<Byte>) returns (read: Option<seq<Component>>)
    ensures read == ReadAll(input)
  {
    var index := 0;
    var values: seq<Component> := [];
    ghost var goal := ReadAll(input);
    NothingRead(input);
    while index < |input|
      invariant index <= |input| && Outcome(input, index, values) == goal
    {
      var ok;
      ok, values, index := ReadNext(input, index, values);
      if !ok {
        return None;
      }
    }
    AllRead(input, values);
    read := Some(values);
  }

  /** The dashboard's parser. */
  method ParseStorageKey(input: seq<Byte>) returns (key: Option<SessionKey>)
    ensures key == Parsed(input)
  {
    var values := ReadValues(input);
    if values.None? {
      return None;
    }
    key := FromValues(values.value);
  }

  function Prefixed(vs: seq<Component>, tail: Option<seq<Component>>): Option<seq<Component>> {
    if tail.Some? then Some(vs + tail.value) else None
  }

  lemma PrefixedTwice(vs: seq<Component>, v: Component, tail: Option<seq<Component>>)
    ensures Prefixed(vs, Prefixed([v], tail)) == Prefixed(vs + [v], tail)
  {
    if tail.Some? {
      assert vs + ([v] + tail.value) == vs + [v] + tail.value;
    }
  }

  // ---------------------------------------------------------------------
  // Reading undoes writing.
  // ---------------------------------------------------------------------

  lemma {:induction false} DecimalRoundTrip(n: nat)
    ensures Value(Decimal(n)) == n && Decimal(n) != []
    ensures forall i :: 0 <= i < |Decimal(n)| ==> IsDigit(Decimal(n)[i])
  {
    if n >= 10 {
      DecimalRoundTrip(n / 10);
      var d := Decimal(n);
      assert d[..|d| - 1] == Decimal(n / 10);
    }
  }

  lemma {:induction false} DigitsThen(d: seq<Byte>, t: seq<Byte>)
    requires forall i :: 0 <= i < |d| ==> IsDigit(d[i])
    requires t != [] && !IsDigit(t[0])
    ensures LeadingDigits(d + t) == |d|
    decreases |d|
  {
    if d == [] {
      assert d + t == t;
    } else {
      assert (d + t)[1..] == d[1..] + t;
      DigitsThen(d[1..], t);
    }
  }

  lemma StrStart(s: seq<Byte>)
    requires FromUtf8(s).Valid?
    ensures s != [] ==> !IsTail(s[0])
  {
  }

  lemma BodyRoundTrip(digits: seq<Byte>, value: seq<Byte>, rest: seq<Byte>)
    requires IsStr(value) && Value(digits) == |value| && (rest != [] ==> rest[0] == BAR)
    ensures ReadBody(digits, value + rest) == Got(Some(value), rest)
  {
    StrStart(value);
    var body := value + rest;
    assert body[..|value|] == value && body[|value|..] == rest;
    assert IsBoundary(body, 0) && IsBoundary(body, |value|);
  }

  /** A written component is read back, whatever bytes it holds, if something that can follow
      a component follows it. */
  lemma ComponentRoundTrip(v: Component, rest: seq<Byte>)
    requires IsText(v) && (rest != [] ==> rest[0] == BAR)
    ensures ReadComponent(Written(v) + rest) == Got(v, rest)
  {
    var s := Written(v) + rest;
    if v.Some? {
      var d, body := Decimal(|v.value|), v.value + rest;
      DecimalRoundTrip(|v.value|);
      BodyRoundTrip(d, v.value, rest);
      ConcatAssoc(d + [COLON], v.value, rest);
      PrefixedRead(s, d, body);
    } else {
      assert s[1..] == rest;
    }
  }

  lemma PrefixedRead(s: seq<Byte>, d: seq<Byte>, body: seq<Byte>)
    requires d != [] && (forall i :: 0 <= i < |d| ==> IsDigit(d[i]))
    requires s == d + [COLON] + body
    ensures ReadComponent(s) == ReadBody(d, body)
  {
    DigitsThen(d, [COLON] + body);
    assert s == d + ([COLON] + body);
    assert s[0] == d[0] && s[..|d|] == d && s[|d| + 1..] == body;
  }

  predicate AreText(values: seq<Component>) {
    forall i :: 0 <= i < |values| ==> IsText(values[i])
  }

  /** Any non-empty list of components survives, with bars, colons, dashes and empty values
      inside them. */
  lemma {:induction false} ReadingUndoesWriting(values: seq<Component>)
    requires values != [] && AreText(values)
    ensures ReadAll(Joined(values)) == Some(values) && !HasTrailingBar(Joined(values))
    decreases |values|
  {
    var s := Joined(values);
    if |values| == 1 {
      ComponentRoundTrip(values[0], []);
      assert s == Written(values[0]) + [];
      assert values == [values[0]];
    } else {
      var rest := [BAR] + Joined(values[1..]);
      ComponentRoundTrip(values[0], rest);
      assert s == Written(values[0]) + rest && rest[1..] == Joined(values[1..]);
      ReadingUndoesWriting(values[1..]);
      assert values == [values[0]] + values[1..];
    }
  }

  /** The encoding is injective, even across component counts. */
  lemma WritingIsInjective(a: seq<Component>, b: seq<Component>)
    requires a != [] && b != [] && AreText(a) && AreText(b) && Joined(a) == Joined(b)
    ensures a == b
  {
    ReadingUndoesWriting(a);
    ReadingUndoesWriting(b);
  }

  lemma StoredComponents(k: SessionKey)
    requires k.IsKey()
    ensures AreText(Components(k)) && FromValues(Components(k)) == Some(k.Canonical())
  {
    assert IsStr([]);
  }

  /** The dashboard reads a stored key back to its canonical form ... */
  lemma KeyRoundTrip(k: SessionKey)
    requires k.IsKey()
    ensures Parsed(StorageKeyOf(k)) == Some(k.Canonical())
  {
    StoredComponents(k);
    ReadingUndoesWriting(Components(k));
  }

  /** ... which is the key itself exactly for direct messages and keys without a sender. */
  lemma KeySurvivesIff(k: SessionKey)
    requires k.IsKey()
    ensures Parsed(StorageKeyOf(k)) == Some(k) <==> k.guild.None? || k.user == []
  {
    KeyRoundTrip(k);
  }

  /** The sender `u` of the guild `g` is not in the stored key. */
  lemma GuildSenderIsLost()
    ensures var k := SessionKey([100], Some([103]), [99], None, [117], None);
            k.IsKey() && Parsed(StorageKeyOf(k)) == Some(k.(user := []))
  {
    var k := SessionKey([100], Some([103]), [99], None, [117], None);
    OneAscii(100);
    OneAscii(103);
    OneAscii(99);
    OneAscii(117);
    KeyRoundTrip(k);
  }

  lemma OneAscii(b: Byte)
    requires b <= 0x7F
    ensures IsStr([b])
  {
    assert [b][1..] == [] && Look([b]) == Good(1);
  }

  lemma JoinedMore(v: Component, rest: seq<Component>)
    requires rest != []
    ensures Joined([v] + rest) == Written(v) + [BAR] + Joined(rest)
  {
    assert ([v] + rest)[1..] == rest;
  }

  lemma WrittenByte(b: Byte)
    ensures Written(Some([b])) == [49, 58, b]
  {
  }

  lemma StoredEnd()
    ensures Joined([Some([99]), None, Some([])]) == [49, 58, 99, 124, 45, 124, 48, 58]
  {
    var a: seq<Component> := [Some([])];
    assert Joined(a) == [48, 58];
    JoinedMore(None, a);
    JoinedMore(Some([99]), [None] + a);
    WrittenByte(99);
    assert [Some([99])] + ([None] + a) == [Some([99]), None, Some([])];
  }

  /** The key of channel `c` in guild `g` on `d`, without a thread, is stored as `1:d|1:g|1:c|-|0:`. */
  lemma StoredExample()
    ensures StorageKeyOf(SessionKey([100], Some([103]), [99], None, [117], None))
            == [49, 58, 100, 124, 49, 58, 103, 124, 49, 58, 99, 124, 45, 124, 48, 58]
  {
    var c: seq<Component> := [Some([99]), None, Some([])];
    StoredEnd();
    JoinedMore(Some([103]), c);
    JoinedMore(Some([100]), [Some([103])] + c);
    WrittenByte(103);
    WrittenByte(100);
    assert Components(SessionKey([100], Some([103]), [99], None, [117], None)) == [Some([100])] + ([Some([103])] + c);
  }

  /** Two keys are stored alike exactly when they agree on everything but the sender in a guild. */
  lemma StoredAlikeIff(a: SessionKey, b: SessionKey)
    requires a.IsKey() && b.IsKey()
    ensures StorageKeyOf(a) == StorageKeyOf(b) <==> a.Canonical() == b.Canonical()
  {
    if StorageKeyOf(a) == StorageKeyOf(b) {
      KeyRoundTrip(a);
      KeyRoundTrip(b);
    }
    if a.Canonical() == b.Canonical() {
      assert Components(a) == Components(b);
    }
  }

  // ---------------------------------------------------------------------
  // Values cut out of a string are strings.
  // ---------------------------------------------------------------------

  lemma PrependIsValid(s: seq<Byte>, t: seq<Byte>)
    requires WellFormed(s) && FromUtf8(t).Valid?
    ensures FromUtf8(s + t).Valid?
  {
    assert Look(s) == Good(|s|);
    LookIsStable(s, t);
    assert (s + t)[|s|..] == t;
  }

  lemma InsideIsTail(s: seq<Byte>, k: nat)
    requires 0 < k < |s| && WellFormed(s)
    ensures IsTail(s[k])
  {
  }

  lemma FirstScalar(s: seq<Byte>) returns (n: nat)
    requires s != [] && FromUtf8(s).Valid?
    ensures 0 < n <= |s| && WellFormed(s[..n]) && FromUtf8(s[n..]).Valid?
  {
    LookMeaning(s);
    n := Look(s).len;
  }

  lemma NotInside(s: seq<Byte>, n: nat, k: nat)
    requires n <= |s| && WellFormed(s[..n]) && 0 < k && IsBoundary(s, k)
    ensures n <= k
  {
    if k < n {
      InsideIsTail(s[..n], k);
    }
  }

  lemma CutTwice<T>(s: seq<T>, n: nat, k: nat)
    requires n <= k <= |s|
    ensures s[..n] + s[n..][..k - n] == s[..k] && s[n..][k - n..] == s[k..]
  {
  }

  /** One scalar further on. */
  lemma CutStep(s: seq<Byte>, n: nat, k: nat)
    requires n <= k <= |s| && WellFormed(s[..n])
    requires FromUtf8(s[n..][..k - n]).Valid? && FromUtf8(s[n..][k - n..]).Valid?
    ensures FromUtf8(s[..k]).Valid? && FromUtf8(s[k..]).Valid?
  {
    PrependIsValid(s[..n], s[n..][..k - n]);
    CutTwice(s, n, k);
  }

  lemma {:induction false} CutIsValid(s: seq<Byte>, k: nat)
    requires FromUtf8(s).Valid? && IsBoundary(s, k)
    ensures k <= |s| && FromUtf8(s[..k]).Valid? && FromUtf8(s[k..]).Valid?
    decreases |s|
  {
    if k == 0 {
      assert s[0..] == s && s[..0] == [];
    } else {
      var n := FirstScalar(s);
      NotInside(s, n, k);
      CutIsValid(s[n..], k - n);
      CutStep(s, n, k);
    }
  }

  /** Whatever the dashboard reads out of a string is itself made of strings. */
  lemma {:induction false} ValuesAreText(s: seq<Byte>)
    requires IsStr(s)
    ensures ReadAll(s).Some? ==> AreText(ReadAll(s).value)
    decreases |s|
  {
    var read := ReadComponent(s);
    if read.Got? {
      ReadAdvances(s);
      ComponentIsText(s);
      if read.rest != [] && read.rest[0] == BAR {
        AfterAscii(read.rest, 0);
        ValuesAreText(read.rest[1..]);
      }
    }
  }

  lemma ComponentIsText(s: seq<Byte>)
    requires IsStr(s) && ReadComponent(s).Got?
    ensures IsText(ReadComponent(s).value) && IsStr(ReadComponent(s).rest)
  {
    if s[0] == DASH {
      AfterAscii(s, 0);
    } else {
      var n := LeadingDigits(s);
      AfterAscii(s, n);
      CutIsValid(s[n + 1..], Value(s[..n]));
    }
  }

  /** What follows an ASCII byte of a string is a string. */
  lemma AfterAscii(s: seq<Byte>, i: nat)
    requires FromUtf8(s).Valid? && i < |s| && s[i] <= 0x7F
    ensures FromUtf8(s[i + 1..]).Valid?
  {
    CutIsValid(s, i);
    var t := s[i..];
    assert Look(t) == Good(1) && t[1..] == s[i + 1..];
  }

  // ---------------------------------------------------------------------
  // The strict parser.
  // ---------------------------------------------------------------------

  datatype FieldName = Platform | Channel | User

  datatype ParseError =
    | EmptyInput
    | MalformedComponent(offset: nat)
    | ExpectedSeparator(offset: nat)
    | TrailingData(offset: nat)
    | MissingRequiredField(name: FieldName)

  datatype Result<+T> = Ok(value: T) | Err(error: ParseError) {
    predicate IsFailure() {
      Err?
    }
    function PropagateFailure<U>(): Result<U>
      requires Err?
    {
      Err(error)
    }
    function Extract(): T
      requires Ok?
    {
      value
    }
  }

  /** A value read, what remains, and the offset of what remains. */
  datatype Taken<T> = Taken(value: T, rest: seq<Byte>, offset: nat)

  function FindColon(s: seq<Byte>): (i: nat)
    ensures i <= |s| && (i < |s| ==> s[i] == COLON) && COLON !in s[..i]
  {
    if s == [] || s[0] == COLON then 0 else 1 + FindColon(s[1..])
  }

  /** Reading an unsigned number of machine width: digits, with an optional plus sign. */
  function ParseUsize(s: seq<Byte>): Option<nat> {
    var digits := if s != [] && s[0] == PLUS then s[1..] else s;
    if digits == [] || LeadingDigits(digits) < |digits| || !(0 <= Value(digits) < USIZE_LIMIT) then None
    else Some(Value(digits))
  }

  function TakeComponent(s: seq<Byte>, offset: nat): Result<Taken<Component>> {
    if s != [] && s[0] == DASH then Ok(Taken(None, s[1..], offset + 1))
    else
      var c := FindColon(s);
      if c == |s| then Err(MalformedComponent(offset))
      else
        var length := ParseUsize(s[..c]);
        var body := s[c + 1..];
        if length.None? || |body| < length.value || (length.value != 0 && !IsBoundary(body, length.value))
        then Err(MalformedComponent(offset))
        else Ok(Taken(Some(body[..length.value]), body[length.value..], offset + c + 1 + length.value))
  }

  /** A component and the bar after it. */
  function TakeWithBar(s: seq<Byte>, offset: nat): Result<Taken<Component>> {
    var t :- TakeComponent(s, offset);
    Bar(t)
  }

  function Bar(t: Taken<Component>): Result<Taken<Component>> {
    if t.rest == [] || t.rest[0] != BAR then Err(ExpectedSeparator(t.offset))
    else Ok(Taken(t.value, t.rest[1..], t.offset + 1))
  }

  function Required(t: Taken<Component>, name: FieldName): Result<Taken<seq<Byte>>> {
    if t.value.None? then Err(MissingRequiredField(name)) else Ok(Taken(t.value.value, t.rest, t.offset))
  }

  /** A required component and the bar after it: a missing value is reported first. */
  function TakeRequired(s: seq<Byte>, offset: nat, name: FieldName): Result<Taken<seq<Byte>>> {
    var t :- TakeComponent(s, offset);
    var v :- Required(t, name);
    var b :- Bar(t);
    Ok(Taken(v.value, b.rest, b.offset))
  }

  function TakeUser(t: Taken<Component>, guild: Component): Result<seq<Byte>> {
    if guild.Some? then Ok([])
    else if t.value.None? then Err(MissingRequiredField(User))
    else Ok(t.value.value)
  }

  function TakeBot(rest: seq<Byte>, offset: nat): Result<Component> {
    if rest == [] then Ok(None)
    else if rest[0] != BAR then Err(ExpectedSeparator(offset))
    else
      var t :- TakeComponent(rest[1..], offset + 1);
      if t.rest != [] then Err(TrailingData(t.offset)) else Ok(t.value)
  }

  /** From the thread on. */
  function ParseEnd(platform: seq<Byte>, guild: Component, channel: seq<Byte>, s: seq<Byte>, offset: nat): Result<SessionKey> {
    var thread :- TakeWithBar(s, offset);
    var t :- TakeComponent(thread.rest, thread.offset);
    var user :- TakeUser(t, guild);
    var bot :- TakeBot(t.rest, t.offset);
    Ok(SessionKey(platform, guild, channel, thread.value, user, bot))
  }

  function FromStorageKey(raw: seq<Byte>): Result<SessionKey> {
    if raw == [] then Err(EmptyInput)
    else
      var platform :- TakeRequired(raw, 0, Platform);
      var guild :- TakeWithBar(platform.rest, platform.offset);
      var channel :- TakeRequired(guild.rest, guild.offset, Channel);
      ParseEnd(platform.value, guild.value, channel.value, channel.rest, channel.offset)
  }

  // ---------------------------------------------------------------------
  // The two parsers agree.
  // ---------------------------------------------------------------------

  lemma {:induction false} ColonAfterDigits(s: seq<Byte>)
    requires var n := LeadingDigits(s); n < |s| && s[n] == COLON
    ensures FindColon(s) == LeadingDigits(s)
    decreases |s|
  {
    if IsDigit(s[0]) {
      ColonAfterDigits(s[1..]);
    }
  }

  lemma {:induction false} AllDigits(d: seq<Byte>)
    requires forall i :: 0 <= i < |d| ==> IsDigit(d[i])
    ensures LeadingDigits(d) == |d| && Value(d) >= 0
    decreases |d|
  {
    if d != [] {
      var init := d[..|d| - 1];
      AllDigits(init);
    }
  }

  /** What the dashboard reads, the strict parser reads too, and stands where it should. */
  lemma TakeAgrees(s: seq<Byte>, offset: nat)
    requires ReadComponent(s).Got?
    ensures var read := ReadComponent(s);
            && |read.rest| <= |s|
            && TakeComponent(s, offset) == Ok(Taken(read.value, read.rest, offset + |s| - |read.rest|))
  {
    if s[0] != DASH {
      var n := LeadingDigits(s);
      ColonAfterDigits(s);
      AllDigits(s[..n]);
      assert s[..n][0] == s[0];
    }
  }

  lemma TakeAdvances(s: seq<Byte>, offset: nat)
    ensures TakeComponent(s, offset).Ok? ==> |TakeComponent(s, offset).value.rest| < |s|
  {
  }

  /** Components with bars between them, to the end of the input. */
  function TakeAll(s: seq<Byte>): Option<seq<Component>>
    decreases |s|
  {
    match TakeComponent(s, 0)
    case Err(_) => None
    case Ok(t) =>
      TakeAdvances(s, 0);
      if t.rest == [] then Some([t.value])
      else if t.rest[0] != BAR then None
      else Prefixed([t.value], TakeAll(t.rest[1..]))
  }

  /** Where the input stands is only reported, never used. */
  lemma OffsetIsIrrelevant(s: seq<Byte>, offset: nat)
    ensures TakeComponent(s, offset).Ok? <==> TakeComponent(s, 0).Ok?
    ensures TakeComponent(s, offset).Ok? ==>
              && TakeComponent(s, offset).value.value == TakeComponent(s, 0).value.value
              && TakeComponent(s, offset).value.rest == TakeComponent(s, 0).value.rest
  {
  }

  /** One component and its bar, in terms of the whole list. */
  lemma TakeWithBarIff(s: seq<Byte>, offset: nat)
    ensures var t := TakeWithBar(s, offset);
            if t.Ok? then TakeAll(s) == Prefixed([t.value.value], TakeAll(t.value.rest))
            else TakeAll(s).None? || |TakeAll(s).value| == 1
    ensures forall name ::
              TakeRequired(s, offset, name).Ok? <==> TakeWithBar(s, offset).Ok? && TakeWithBar(s, offset).value.value.Some?
    ensures forall name :: TakeRequired(s, offset, name).Ok? ==>
              var t := TakeWithBar(s, offset).value;
              TakeRequired(s, offset, name).value == Taken(t.value.value, t.rest, t.offset)
  {
    OffsetIsIrrelevant(s, offset);
  }

  lemma TakeAllIsNotEmpty(s: seq<Byte>)
    ensures TakeAll(s).Some? ==> |TakeAll(s).value| >= 1
  {
  }

  lemma AtLeastTwo(s: seq<Byte>)
    requires TakeComponent(s, 0).Ok? ==> TakeComponent(s, 0).value.rest != []
    ensures TakeAll(s).Some? ==> |TakeAll(s).value| >= 2
  {
    if TakeAll(s).Some? {
      TakeAllIsNotEmpty(TakeComponent(s, 0).value.rest[1..]);
    }
  }

  /** The last one or two components. */
  lemma TakeEndIff(s: seq<Byte>, offset: nat)
    ensures var all := TakeAll(s);
            if all.Some? && |all.value| <= 2 then
              && TakeComponent(s, offset).Ok?
              && var t := TakeComponent(s, offset).value;
              && t.value == all.value[0]
              && TakeBot(t.rest, t.offset) == Ok(if |all.value| == 2 then all.value[1] else None)
            else
              TakeComponent(s, offset).Ok? ==>
                TakeBot(TakeComponent(s, offset).value.rest, TakeComponent(s, offset).value.offset).Err?
  {
    OffsetIsIrrelevant(s, offset);
    if TakeComponent(s, offset).Ok? {
      var t := TakeComponent(s, offset).value;
      if t.rest != [] && t.rest[0] == BAR {
        OffsetIsIrrelevant(t.rest[1..], t.offset + 1);
        TakeAllIsNotEmpty(t.rest[1..]);
        if TakeComponent(t.rest[1..], 0).Ok? && TakeComponent(t.rest[1..], 0).value.rest != [] {
          AtLeastTwo(t.rest[1..]);
        }
      }
    }
  }

  /** The strict parser's grammar: five or six components, a platform and a channel, and a sender
      unless there is a guild. */
  predicate IsStrictList(vs: seq<Component>) {
    && 5 <= |vs| <= 6
    && vs[0].Some? && vs[2].Some? && (vs[1].Some? || vs[4].Some?)
  }

  function StrictKey(vs: seq<Component>): SessionKey
    requires IsStrictList(vs)
  {
    SessionKey(vs[0].value, vs[1], vs[2].value, vs[3], if vs[1].Some? then [] else vs[4].value,
               if |vs| == 6 then vs[5] else None)
  }

  ghost predicate IsVerdict(result: Result<SessionKey>, all: Option<seq<Component>>) {
    if all.Some? && IsStrictList(all.value) then result == Ok(StrictKey(all.value)) else result.Err?
  }

  lemma TakeAllOfNothing()
    ensures TakeAll([]).None?
  {
  }

  /** The grammar from the thread on. */
  predicate IsStrictEnd(guild: Component, vs: seq<Component>) {
    2 <= |vs| <= 3 && (guild.Some? || vs[1].Some?)
  }

  lemma EndVerdict(platform: seq<Byte>, guild: Component, channel: seq<Byte>, s: seq<Byte>, offset: nat)
    ensures var all, result := TakeAll(s), ParseEnd(platform, guild, channel, s, offset);
            if all.Some? && IsStrictEnd(guild, all.value) then
              result == Ok(StrictKey([Some(platform), guild, Some(channel)] + all.value))
            else result.Err?
  {
    TakeWithBarIff(s, offset);
    var t := TakeWithBar(s, offset);
    if t.Ok? {
      TakeEndIff(t.value.rest, t.value.offset);
      TakeAllIsNotEmpty(t.value.rest);
    }
  }

  /** The strict parser accepts exactly the inputs of that grammar. */
  lemma StrictAcceptsIff(raw: seq<Byte>)
    ensures IsVerdict(FromStorageKey(raw), TakeAll(raw))
  {
    TakeAllOfNothing();
    TakeWithBarIff(raw, 0);
    var p := TakeWithBar(raw, 0);
    if p.Ok? {
      TakeAllIsNotEmpty(p.value.rest);
      TakeWithBarIff(p.value.rest, p.value.offset);
      var g := TakeWithBar(p.value.rest, p.value.offset);
      if g.Ok? {
        TakeAllIsNotEmpty(g.value.rest);
        TakeWithBarIff(g.value.rest, g.value.offset);
        var c := TakeWithBar(g.value.rest, g.value.offset);
        if c.Ok? {
          TakeAllIsNotEmpty(c.value.rest);
          JoinThree(p.value.value, g.value.value, c.value.value, TakeAll(c.value.rest));
          if p.value.value.Some? && c.value.value.Some? {
            EndVerdict(p.value.value.value, g.value.value, c.value.value.value, c.value.rest, c.value.offset);
          }
        }
      }
    }
  }

  lemma JoinThree(a: Component, b: Component, c: Component, rest: Option<seq<Component>>)
    ensures Prefixed([a], Prefixed([b], Prefixed([c], rest))) == Prefixed([a, b, c], rest)
    ensures var all := Prefixed([a, b, c], rest);
            all.Some? && IsStrictList(all.value) <==>
            rest.Some? && a.Some? && c.Some? && IsStrictEnd(b, rest.value)
  {
    if rest.Some? {
      assert [a] + ([b] + ([c] + rest.value)) == [a, b, c] + rest.value;
    }
  }

  /** What the dashboard reads, the strict parser reads too, but for a trailing bar. */
  lemma {:induction false} TakeAllAgrees(s: seq<Byte>)
    requires s != [] && ReadAll(s).Some?
    ensures TakeAll(s) == if HasTrailingBar(s) then None else ReadAll(s)
    decreases |s|
  {
    TakeAgrees(s, 0);
    ReadAdvances(s);
    var rest := ReadComponent(s).rest;
    if rest != [] {
      if |rest| == 1 {
        assert rest[1..] == [];
        TakeAllOfNothing();
      } else {
        TakeAllAgrees(rest[1..]);
      }
    }
  }

  /** On every input the dashboard accepts, the strict parser returns the canonical key, unless
      a bar without a component ends the input: that it refuses. */
  lemma ParsersAgree(raw: seq<Byte>)
    requires Parsed(raw).Some?
    ensures if HasTrailingBar(raw) then FromStorageKey(raw).Err?
            else FromStorageKey(raw) == Ok(Parsed(raw).value.Canonical())
  {
    TakeAllAgrees(raw);
    StrictAcceptsIff(raw);
  }

  /** The strict parser inverts the encoding as well. */
  lemma StrictRoundTrip(k: SessionKey)
    requires k.IsKey()
    ensures FromStorageKey(StorageKeyOf(k)) == Ok(k.Canonical())
  {
    StoredComponents(k);
    ReadingUndoesWriting(Components(k));
    ParsersAgree(StorageKeyOf(k));
  }

  // ---------------------------------------------------------------------
  // What only the strict parser accepts.
  // ---------------------------------------------------------------------

  /** Some length is written with a plus sign. */
  predicate HasPlus(s: seq<Byte>)
    decreases |s|
  {
    s != [] &&
    (s[0] == PLUS ||
     match TakeComponent(s, 0)
     case Err(_) => false
     case Ok(t) =>
       TakeAdvances(s, 0);
       t.rest != [] && t.rest[0] == BAR && HasPlus(t.rest[1..]))
  }

  lemma PlainUsize(d: seq<Byte>)
    requires ParseUsize(d).Some? && (d != [] ==> d[0] != PLUS)
    ensures d != [] && (forall i :: 0 <= i < |d| ==> IsDigit(d[i]))
    ensures ParseUsize(d).value == Value(d) < USIZE_LIMIT
  {
    AllLeading(d);
  }

  /** Cutting at a plain length. */
  lemma TakeIsReadBody(d: seq<Byte>, body: seq<Byte>)
    requires ParseUsize(d).Some? && d[0] != PLUS && IsBoundary(body, 0)
    requires var n := ParseUsize(d).value; n <= |body| && (n == 0 || IsBoundary(body, n))
    ensures ReadBody(d, body) == Got(Some(body[..ParseUsize(d).value]), body[ParseUsize(d).value..])
  {
    PlainUsize(d);
  }

  lemma PlainRead(s: seq<Byte>, c: nat)
    requires c < |s| && s[c] == COLON && ParseUsize(s[..c]).Some? && s[0] != PLUS && IsBoundary(s[c + 1..], 0)
    requires var n := ParseUsize(s[..c]).value; n <= |s[c + 1..]| && (n == 0 || IsBoundary(s[c + 1..], n))
    ensures var n, body := ParseUsize(s[..c]).value, s[c + 1..];
            ReadComponent(s) == Got(Some(body[..n]), body[n..])
  {
    var d, body := s[..c], s[c + 1..];
    assert d != [] ==> d[0] == s[0];
    PlainUsize(d);
    TakeIsReadBody(d, body);
    assert s == d + [COLON] + body;
    PrefixedRead(s, d, body);
  }

  /** The converse of `TakeAgrees`, for a component without a plus sign. */
  lemma ReadAgrees(s: seq<Byte>)
    requires s != [] && s[0] != PLUS && TakeComponent(s, 0).Ok?
    requires s[0] != DASH ==> FindColon(s) < |s| && IsBoundary(s[FindColon(s) + 1..], 0)
    ensures var t := TakeComponent(s, 0).value;
            ReadComponent(s) == Got(t.value, t.rest)
  {
    if s[0] != DASH {
      PlainRead(s, FindColon(s));
    }
  }

  lemma AfterComponent(s: seq<Byte>)
    requires FromUtf8(s).Valid? && s != [] && TakeComponent(s, 0).Ok?
    ensures FromUtf8(TakeComponent(s, 0).value.rest).Valid?
    ensures s[0] != DASH ==> FindColon(s) < |s| && IsBoundary(s[FindColon(s) + 1..], 0)
  {
    if s[0] == DASH {
      AfterAscii(s, 0);
    } else {
      var c := FindColon(s);
      AfterAscii(s, c);
      StrStart(s[c + 1..]);
      var length := ParseUsize(s[..c]).value;
      if length == 0 {
        assert s[c + 1..][0..] == s[c + 1..];
      } else {
        CutIsValid(s[c + 1..], length);
      }
    }
  }

  lemma {:induction false} AllLeading(d: seq<Byte>)
    requires LeadingDigits(d) == |d|
    ensures forall i :: 0 <= i < |d| ==> IsDigit(d[i])
  {
  }

  lemma {:induction false} ReadAllAgrees(s: seq<Byte>)
    requires FromUtf8(s).Valid? && TakeAll(s).Some?
    ensures ReadAll(s) == if HasPlus(s) then None else TakeAll(s)
    decreases |s|
  {
    TakeAllOfNothing();
    if s[0] != PLUS {
      AfterComponent(s);
      ReadAgrees(s);
      TakeAdvances(s, 0);
      var rest := ReadComponent(s).rest;
      if rest != [] {
        AfterAscii(rest, 0);
        ReadAllAgrees(rest[1..]);
        TakeAllOfNothing();
      }
    }
  }

  /** The strict parser accepts what the dashboard refuses exactly when a length carries a plus
      sign or a guild key has no sender. */
  lemma OnlyStrictAcceptsIff(raw: seq<Byte>)
    requires IsStr(raw)
    ensures FromStorageKey(raw).Ok? ==>
              && TakeAll(raw).Some? && |TakeAll(raw).value| >= 5
              && (Parsed(raw).None? <==> HasPlus(raw) || TakeAll(raw).value[4].None?)
  {
    StrictAcceptsIff(raw);
    if TakeAll(raw).Some? {
      ReadAllAgrees(raw);
    }
  }
}
