/** Names of agent workspaces: directory names derived from bots, cron jobs and users. */
module WorkspaceSlug {
  import opened Common

  const MAX_SLUG: nat := 48

  function Lower(c: char): char {
    if 'A' <= c <= 'Z' then (c as int + 32) as char else c
  }

  /** Letters, digits and the underscore, as they appear in a slug. */
  predicate IsSlugLetter(c: char) {
    'a' <= c <= 'z' || '0' <= c <= '9' || c == '_'
  }

  predicate IsWordChar(c: char) {
    IsSlugLetter(Lower(c))
  }

  // ---------------------------------------------------------------------
  // Reference: the words of a text, in lower case, joined by single hyphens.
  // ---------------------------------------------------------------------

  /** The maximal runs of word characters, in order. */
  function Words(s: string): (ws: seq<string>)
    ensures s != [] && IsWordChar(s[0]) ==> ws != []
  {
    if s == [] then []
    else
      var ws := Words(s[1..]);
      if !IsWordChar(s[0]) then ws
      else if |s| > 1 && IsWordChar(s[1]) then [[Lower(s[0])] + ws[0]] + ws[1..]
      else [[Lower(s[0])]] + ws
  }

  function Joined(ws: seq<string>): string {
    if ws == [] then "" else if |ws| == 1 then ws[0] else ws[0] + "-" + Joined(ws[1..])
  }

  function Sanitized(s: string): string {
    Joined(Words(s))
  }

  /** Slug letters and hyphens, with no hyphen outside and no two in a row. */
  predicate IsClean(s: string) {
    && (forall i :: 0 <= i < |s| ==> IsSlugLetter(s[i]) || s[i] == '-')
    && (s != "" ==> s[0] != '-' && s[|s| - 1] != '-')
    && (forall i :: 0 <= i < |s| - 1 ==> !(s[i] == '-' && s[i + 1] == '-'))
  }

  // ---------------------------------------------------------------------
  // The buffer of the loop.
  // ---------------------------------------------------------------------

  /** What the loop appends for `s`; `hyphen` says whether it has just written one. */
  function Appended(s: string, hyphen: bool): string {
    if s == [] then ""
    else if IsWordChar(s[0]) then [Lower(s[0])] + Appended(s[1..], false)
    else (if hyphen then "" else "-") + Appended(s[1..], true)
  }

  function TrimStart(s: string): string {
    if s != [] && s[0] == '-' then TrimStart(s[1..]) else s
  }

  function TrimEnd(s: string): string {
    if s != [] && s[|s| - 1] == '-' then TrimEnd(s[..|s| - 1]) else s
  }

  /** Lower-cases word characters and turns every run of others into one hyphen. */
  method Sanitize(raw: string) returns (r: string)
    ensures r == Sanitized(raw)
  {
    var result := "";
    var lastWasHyphen := false;
    for i := 0 to |raw|
      invariant result + Appended(raw[i..], lastWasHyphen) == Appended(raw, false)
    {
      var lower := Lower(raw[i]);
      assert raw[i..][1..] == raw[i + 1..];
      ConcatAssoc(result, [lower], Appended(raw[i + 1..], false));
      ConcatAssoc(result, "-", Appended(raw[i + 1..], true));
      if IsSlugLetter(lower) {
        result := result + [lower];
        lastWasHyphen := false;
      } else if !lastWasHyphen {
        result := result + "-";
        lastWasHyphen := true;
      }
    }
    assert result + "" == result;
    TrimmedIsSanitized(raw);
    r := TrimEnd(TrimStart(result));
  }

  function Lead(s: string): string {
    if s != [] && !IsWordChar(s[0]) then "-" else ""
  }

  function Trail(s: string): string {
    if s != [] && !IsWordChar(s[|s| - 1]) && Words(s) != [] then "-" else ""
  }

  lemma {:induction false} NoWords(s: string)
    requires Words(s) == [] && s != []
    ensures !IsWordChar(s[|s| - 1])
  {
    if |s| > 1 {
      NoWords(s[1..]);
    }
  }

  lemma FirstWordGrows(c: char, ws: seq<string>)
    requires ws != []
    ensures Joined([[c] + ws[0]] + ws[1..]) == [c] + Joined(ws)
  {
    var grown := [[c] + ws[0]] + ws[1..];
    assert grown[0] == [c] + ws[0] && grown[1..] == ws[1..];
    if |ws| > 1 {
      Regroup(c, ws[0], "-", Joined(ws[1..]));
    }
  }

  lemma WordIsAdded(c: char, ws: seq<string>)
    requires ws != []
    ensures Joined([[c]] + ws) == [c] + "-" + Joined(ws)
  {
    var longer := [[c]] + ws;
    assert longer[0] == [c] && longer[1..] == ws;
  }

  /** The buffer is the words joined, with at most one hyphen before and after. */
  lemma {:induction false} BufferShape(s: string)
    ensures Appended(s, true) == Joined(Words(s)) + Trail(s)
    ensures Appended(s, false) == Lead(s) + Appended(s, true)
  {
    if s != [] {
      var t := s[1..];
      BufferShape(t);
      if IsWordChar(s[0]) {
        WordHead(s);
      } else if t != [] {
        assert t[|t| - 1] == s[|s| - 1];
      }
    }
  }

  /** A word character in front of a text either starts a word or lengthens the first one. */
  lemma WordHead(s: string)
    requires s != [] && IsWordChar(s[0])
    ensures var t := s[1..];
            [Lower(s[0])] + (Lead(t) + (Joined(Words(t)) + Trail(t))) == Joined(Words(s)) + Trail(s)
  {
    var c, t, ws := Lower(s[0]), s[1..], Words(s[1..]);
    WordHeadTrail(s);
    if ws == [] {
      assert Words(s) == [[c]];
      assert [c] + (Lead(t) + ("" + "")) == [c] + Lead(t);
    } else {
      FirstWordGrows(c, ws);
      WordIsAdded(c, ws);
      Regroup(c, Lead(t), Joined(ws), Trail(t));
    }
  }

  lemma Regroup(c: char, lead: string, x: string, y: string)
    ensures [c] + (lead + (x + y)) == ([c] + lead + x) + y == [c] + (lead + x + y)
    ensures [c] + "" + x == [c] + x
  {
  }

  lemma WordHeadTrail(s: string)
    requires s != [] && IsWordChar(s[0])
    ensures Trail(s) == if Words(s[1..]) == [] then Lead(s[1..]) else Trail(s[1..])
    ensures Words(s[1..]) == [] ==> Trail(s[1..]) == ""
  {
    var t := s[1..];
    if t != [] {
      assert t[|t| - 1] == s[|s| - 1];
      if Words(t) == [] {
        NoWords(t);
      }
    }
  }

  // ---------------------------------------------------------------------
  // Clean texts.
  // ---------------------------------------------------------------------

  predicate IsSlugWord(w: string) {
    w != "" && forall i :: 0 <= i < |w| ==> IsSlugLetter(w[i])
  }

  lemma {:induction false} WordsAreWords(s: string)
    ensures forall i :: 0 <= i < |Words(s)| ==> IsSlugWord(Words(s)[i])
  {
    if s != [] {
      WordsAreWords(s[1..]);
    }
  }

  lemma {:induction false} JoinedIsClean(ws: seq<string>)
    requires forall i :: 0 <= i < |ws| ==> IsSlugWord(ws[i])
    ensures IsClean(Joined(ws)) && (ws != [] ==> Joined(ws) != "")
  {
    if |ws| > 1 {
      JoinedIsClean(ws[1..]);
      CleanJoin(ws[0], Joined(ws[1..]));
    } else if |ws| == 1 {
      assert IsSlugWord(ws[0]);
    }
  }

  lemma CleanJoin(a: string, b: string)
    requires IsClean(a) && IsClean(b) && a != "" && b != ""
    ensures IsClean(a + "-" + b)
  {
    var s := a + "-" + b;
    forall i | 0 <= i < |s| - 1 ensures !(s[i] == '-' && s[i + 1] == '-') {
      if i > |a| {
        assert s[i] == b[i - |a| - 1];
      }
    }
    assert s[|s| - 1] == b[|b| - 1];
  }

  /** Sanitised text has no doubled and no outer hyphens ... */
  lemma SanitizedIsClean(s: string)
    ensures IsClean(Sanitized(s))
  {
    WordsAreWords(s);
    JoinedIsClean(Words(s));
  }

  lemma TrimmedIsSanitized(s: string)
    ensures TrimEnd(TrimStart(Appended(s, false))) == Sanitized(s)
  {
    BufferShape(s);
    WordsAreWords(s);
    JoinedIsClean(Words(s));
    TrimsBack(Lead(s), Sanitized(s), Trail(s));
    assert Lead(s) + (Sanitized(s) + Trail(s)) == Lead(s) + Sanitized(s) + Trail(s);
  }

  lemma TrimsBack(lead: string, s: string, trail: string)
    requires lead in {"", "-"} && trail in {"", "-"} && IsClean(s) && (s == "" ==> trail == "")
    ensures TrimEnd(TrimStart(lead + s + trail)) == s
  {
    var inner := s + trail;
    assert lead + s + trail == lead + inner;
    TrimsLead(lead, inner);
    TrimsTrail(s, trail);
  }

  lemma TrimsLead(lead: string, s: string)
    requires lead == "" || lead == "-"
    requires s == "" || s[0] != '-'
    ensures TrimStart(lead + s) == s
  {
    if lead == "" {
      assert lead + s == s;
    } else {
      assert (lead + s)[1..] == s;
    }
  }

  lemma TrimsTrail(s: string, trail: string)
    requires trail == "" || trail == "-"
    requires s == "" || s[|s| - 1] != '-'
    ensures TrimEnd(s + trail) == s
  {
    if trail == "" {
      assert s + trail == s;
    } else {
      assert (s + trail)[..|s|] == s;
    }
  }

  lemma {:induction false} CleanIsKept(s: string, hyphen: bool)
    requires forall i :: 0 <= i < |s| ==> IsSlugLetter(s[i]) || s[i] == '-'
    requires forall i :: 0 <= i < |s| - 1 ==> !(s[i] == '-' && s[i + 1] == '-')
    requires hyphen && s != "" ==> s[0] != '-'
    ensures Appended(s, hyphen) == s
  {
    if s != [] {
      CleanIsKept(s[1..], s[0] == '-');
    }
  }

  /** ... and the clean texts are exactly those that sanitising leaves alone. */
  lemma FixedIffClean(s: string)
    ensures Sanitized(s) == s <==> IsClean(s)
  {
    SanitizedIsClean(s);
    if IsClean(s) {
      CleanIsKept(s, false);
      TrimmedIsSanitized(s);
      TrimsBack("", s, "");
      assert "" + s + "" == s;
    }
  }

  lemma SanitizeIsIdempotent(s: string)
    ensures Sanitized(Sanitized(s)) == Sanitized(s)
  {
    SanitizedIsClean(s);
    FixedIffClean(Sanitized(s));
  }

  // ---------------------------------------------------------------------
  // Slugs.
  // ---------------------------------------------------------------------

  datatype Category = Bot | Cron | Web | User | Sys {
    function Name(): string {
      match this
      case Bot => "bot"
      case Cron => "cron"
      case Web => "web"
      case User => "user"
      case Sys => "sys"
    }
  }

  predicate IsHex(c: char) {
    '0' <= c <= '9' || 'a' <= c <= 'f'
  }

  /** Four digest bytes in lower-case hexadecimal. */
  type Digest = h: string | |h| == 8 && forall i :: 0 <= i < |h| ==> IsHex(h[i]) witness "00000000"

  /** The library functions a slug depends on: the digest, and full Unicode lower-casing. */
  datatype Library = Library(digest: string -> Digest, lowercase: string -> string)

  datatype Owner = Owner(category: Category, raw: string)

  function OwnerOf(platform: string, user: string, bot: Option<string>): Owner {
    if bot.Some? && bot.value != "" then Owner(Bot, bot.value)
    else if "cron:" <= user then Owner(Cron, user[5..])
    else if platform == "web" || user == "dashboard" then Owner(Web, "dashboard")
    else if user != "" then Owner(User, user)
    else Owner(Sys, "default")
  }

  function Plain(o: Owner): string {
    o.category.Name() + "-" + Sanitized(o.raw)
  }

  /** The slug carries a digest: sanitising lost something, or the plain slug is too long. */
  predicate IsHashed(lib: Library, o: Owner) {
    Sanitized(o.raw) != lib.lowercase(o.raw) || |Plain(o)| > MAX_SLUG
  }

  function Truncated(o: Owner): string {
    var overhead := |o.category.Name()| + 10;
    var limit := if overhead <= MAX_SLUG then MAX_SLUG - overhead else 0;
    var s := Sanitized(o.raw);
    TrimEnd(if |s| > limit then s[..limit] else s)
  }

  function SlugOf(lib: Library, o: Owner): string {
    if IsHashed(lib, o) then
      var t := Truncated(o);
      if t == "" then o.category.Name() + "-" + lib.digest(o.raw)
      else o.category.Name() + "-" + t + "-" + lib.digest(o.raw)
    else Plain(o)
  }

  function Slug(lib: Library, platform: string, user: string, bot: Option<string>): string {
    SlugOf(lib, OwnerOf(platform, user, bot))
  }

  lemma {:induction false} TrimEndIsClean(s: string)
    requires s != "" ==> s[0] != '-'
    requires forall i :: 0 <= i < |s| ==> IsSlugLetter(s[i]) || s[i] == '-'
    requires forall i :: 0 <= i < |s| - 1 ==> !(s[i] == '-' && s[i + 1] == '-')
    ensures IsClean(TrimEnd(s)) && |TrimEnd(s)| <= |s|
    decreases |s|
  {
    if s != [] && s[|s| - 1] == '-' {
      TrimEndIsClean(s[..|s| - 1]);
    }
  }

  lemma TruncatedIsClean(o: Owner)
    ensures IsClean(Truncated(o)) && |Truncated(o)| + |o.category.Name()| + 10 <= MAX_SLUG
  {
    SanitizedIsClean(o.raw);
    var s, limit := Sanitized(o.raw), MAX_SLUG - (|o.category.Name()| + 10);
    TrimEndIsClean(if |s| > limit then s[..limit] else s);
  }

  lemma NameIsClean(c: Category)
    ensures IsSlugWord(c.Name()) && IsClean(c.Name()) && |c.Name()| <= 4
  {
  }

  /** A slug is its category, a hyphen and a rest; the rest is clean. */
  lemma SlugRest(lib: Library, o: Owner) returns (rest: string)
    ensures SlugOf(lib, o) == o.category.Name() + "-" + rest
    ensures IsClean(rest) && |SlugOf(lib, o)| <= MAX_SLUG
    ensures rest == if IsHashed(lib, o) then
                      (if Truncated(o) == "" then lib.digest(o.raw) else Truncated(o) + "-" + lib.digest(o.raw))
                    else Sanitized(o.raw)
  {
    NameIsClean(o.category);
    if IsHashed(lib, o) {
      var t, d: string := Truncated(o), lib.digest(o.raw);
      TruncatedIsClean(o);
      assert IsClean(d);
      if t == "" {
        rest := d;
      } else {
        rest := t + "-" + d;
        CleanJoin(t, d);
        assert o.category.Name() + "-" + t + "-" + d == o.category.Name() + "-" + rest;
      }
    } else {
      rest := Sanitized(o.raw);
      SanitizedIsClean(o.raw);
    }
  }

  /** The owner is the cron user without a job id. */
  predicate IsBareCron(user: string, bot: Option<string>) {
    (bot.None? || bot.value == "") && user == "cron:"
  }

  /** Nothing follows the category exactly for the cron user without a job id. */
  lemma RestIsEmptyIff(lib: Library, platform: string, user: string, bot: Option<string>, rest: string)
    requires forall s :: lib.lowercase(s) == "" <==> s == ""
    requires var o := OwnerOf(platform, user, bot);
             rest == if IsHashed(lib, o) then
                       (if Truncated(o) == "" then lib.digest(o.raw) else Truncated(o) + "-" + lib.digest(o.raw))
                     else Sanitized(o.raw)
    ensures rest == "" <==> IsBareCron(user, bot)
  {
    var o := OwnerOf(platform, user, bot);
    if user == "cron:" {
      assert user[5..] == "";
    } else if "cron:" <= user {
      assert user == "cron:" + user[5..];
    }
    assert o.raw == "" <==> IsBareCron(user, bot);
    assert o.raw == "" ==> Words(o.raw) == [] && |Plain(o)| == |o.category.Name()| + 1;
  }

  /** Every slug is short and made of slug letters and hyphens. It has no doubled or outer hyphen
      either, except that of the cron user without a job id. */
  lemma SlugIsSafe(lib: Library, platform: string, user: string, bot: Option<string>)
    requires forall s :: lib.lowercase(s) == "" <==> s == ""
    ensures var slug := Slug(lib, platform, user, bot);
            && |slug| <= MAX_SLUG
            && (forall i :: 0 <= i < |slug| ==> IsSlugLetter(slug[i]) || slug[i] == '-')
            && (IsClean(slug) <==> !IsBareCron(user, bot))
  {
    var o := OwnerOf(platform, user, bot);
    var rest := SlugRest(lib, o);
    RestIsEmptyIff(lib, platform, user, bot, rest);
    NameIsClean(o.category);
    if rest != "" {
      CleanJoin(o.category.Name(), rest);
    } else {
      assert SlugOf(lib, o) == o.category.Name() + "-";
    }
  }

  /** Its slug is `cron-`. */
  lemma BareCronSlug(lib: Library, platform: string)
    requires lib.lowercase("") == ""
    ensures Slug(lib, platform, "cron:", None) == "cron-"
  {
    assert "cron:"[5..] == "";
    assert OwnerOf(platform, "cron:", None) == Owner(Cron, "");
    assert "cron" + "-" + "" == "cron-";
  }

  /** The part of a text before its first hyphen. */
  function BeforeHyphen(s: string): string {
    if s == [] || s[0] == '-' then "" else [s[0]] + BeforeHyphen(s[1..])
  }

  lemma {:induction false} BeforeHyphenOf(w: string, rest: string)
    requires '-' !in w
    ensures BeforeHyphen(w + "-" + rest) == w
  {
    var s := w + "-" + rest;
    if w != "" {
      assert s[1..] == w[1..] + "-" + rest;
      BeforeHyphenOf(w[1..], rest);
    }
  }

  lemma NameIsInjective(a: Category, b: Category)
    requires a.Name() == b.Name()
    ensures a == b
  {
    assert a.Name()[0] == b.Name()[0];
    assert |a.Name()| == |b.Name()|;
  }

  /** Owners of different categories never share a slug. */
  lemma SameSlugSameCategory(lib: Library, a: Owner, b: Owner)
    requires SlugOf(lib, a) == SlugOf(lib, b)
    ensures a.category == b.category
  {
    var r := SlugRest(lib, a);
    var t := SlugRest(lib, b);
    NameIsClean(a.category);
    NameIsClean(b.category);
    BeforeHyphenOf(a.category.Name(), r);
    BeforeHyphenOf(b.category.Name(), t);
    NameIsInjective(a.category, b.category);
  }

  /** Two slugs without a digest coincide exactly when category and lower-cased value agree. */
  lemma PlainSlugsCoincideIff(lib: Library, a: Owner, b: Owner)
    requires !IsHashed(lib, a) && !IsHashed(lib, b)
    ensures SlugOf(lib, a) == SlugOf(lib, b)
            <==> a.category == b.category && lib.lowercase(a.raw) == lib.lowercase(b.raw)
  {
    if SlugOf(lib, a) == SlugOf(lib, b) {
      SameSlugSameCategory(lib, a, b);
      var n := |a.category.Name() + "-"|;
      assert Plain(a)[n..] == Sanitized(a.raw) && Plain(b)[n..] == Sanitized(b.raw);
    }
  }

  /** The digest does not set hashed slugs apart from plain ones: every hashed slug is also the
      plain slug of the value that spells out its rest. */
  lemma HashedSlugHasPlainTwin(lib: Library, o: Owner) returns (twin: Owner)
    requires IsHashed(lib, o)
    requires forall s :: IsClean(s) ==> lib.lowercase(s) == s
    ensures twin != o && twin.category == o.category && !IsHashed(lib, twin)
    ensures SlugOf(lib, twin) == SlugOf(lib, o) == o.category.Name() + "-" + twin.raw
    ensures IsClean(twin.raw) && (|twin.raw| == 8 || |twin.raw| > 9)
  {
    var rest := SlugRest(lib, o);
    twin := Owner(o.category, rest);
    FixedIffClean(rest);
  }

  /** So for every bot, job or user with a hashed slug there is another one with the same slug. */
  lemma HashedSlugIsShared(lib: Library, platform: string, user: string, bot: Option<string>)
      returns (user': string, bot': Option<string>)
    requires IsHashed(lib, OwnerOf(platform, user, bot))
    requires forall s :: IsClean(s) ==> lib.lowercase(s) == s
    ensures (user', bot') != (user, bot)
    ensures Slug(lib, platform, user', bot') == Slug(lib, platform, user, bot)
  {
    var o := OwnerOf(platform, user, bot);
    var twin := HashedSlugHasPlainTwin(lib, o);
    var rest := twin.raw;
    match o.category
    case Bot =>
      user', bot' := user, Some(rest);
    case Cron =>
      user', bot' := "cron:" + rest, bot;
      assert user'[5..] == rest;
    case User =>
      user', bot' := rest, bot;
      assert !("cron:" <= rest) by { NoColon(rest); }
    case Web | Sys =>
      ConstantsAreClean();
      FixedIffClean(o.raw);
      assert false;
  }

  lemma NoColon(s: string)
    requires IsClean(s)
    ensures !("cron:" <= s)
  {
    if |s| > 4 {
      assert s[4] != "cron:"[4];
    }
  }

  lemma ConstantsAreClean()
    ensures IsClean("dashboard") && IsClean("default")
  {
  }

  // ---------------------------------------------------------------------
  // Whose slug it is, and what it keeps.
  // ---------------------------------------------------------------------

  /** The letters, digits and underscores of a text, in lower case and in order. */
  function Letters(s: string): string {
    if s == [] then "" else (if IsWordChar(s[0]) then [Lower(s[0])] else "") + Letters(s[1..])
  }

  lemma {:induction false} LettersConcat(a: string, b: string)
    ensures Letters(a + b) == Letters(a) + Letters(b)
    decreases |a|
  {
    if a == [] {
      assert a + b == b;
    } else {
      assert (a + b)[1..] == a[1..] + b && (a + b)[0] == a[0];
      LettersConcat(a[1..], b);
      ConcatAssoc(if IsWordChar(a[0]) then [Lower(a[0])] else "", Letters(a[1..]), Letters(b));
    }
  }

  lemma {:induction false} AppendedLetters(s: string, hyphen: bool)
    ensures Letters(Appended(s, hyphen)) == Letters(s)
  {
    if s != [] {
      if IsWordChar(s[0]) {
        AppendedLetters(s[1..], false);
        assert Appended(s, hyphen)[1..] == Appended(s[1..], false);
        assert Lower(Lower(s[0])) == Lower(s[0]);
      } else {
        AppendedLetters(s[1..], true);
        if hyphen {
          assert Appended(s, hyphen) == Appended(s[1..], true);
        } else {
          assert Appended(s, hyphen)[1..] == Appended(s[1..], true);
        }
      }
    }
  }

  /** Sanitising keeps every letter, digit and underscore, and their order. */
  lemma SanitizeKeepsLetters(s: string)
    ensures Letters(Sanitized(s)) == Letters(s)
  {
    BufferShape(s);
    AppendedLetters(s, false);
    LettersConcat(Lead(s), Sanitized(s) + Trail(s));
    LettersConcat(Sanitized(s), Trail(s));
    assert Letters(Lead(s)) == "" && Letters(Trail(s)) == "";
  }

  /** Bots come first, then cron jobs, then the dashboard, then users. */
  lemma OwnerMeaning(platform: string, user: string, bot: Option<string>, raw: string)
    ensures var o, noBot := OwnerOf(platform, user, bot), bot == None || bot == Some("");
            var web := platform == "web" || user == "dashboard";
            && (o == Owner(Bot, raw) <==> raw != "" && bot == Some(raw))
            && (o == Owner(Cron, raw) <==> noBot && user == "cron:" + raw)
            && (o == Owner(Web, raw) <==> noBot && !("cron:" <= user) && web && raw == "dashboard")
            && (o == Owner(User, raw) <==> noBot && !("cron:" <= user) && !web && user != "" && raw == user)
            && (o == Owner(Sys, raw) <==> noBot && platform != "web" && user == "" && raw == "default")
  {
    if "cron:" <= user {
      assert user == "cron:" + user[5..];
    }
    assert ("cron:" + raw)[5..] == raw;
  }

  function Prefix(c: Category): string {
    match c
    case Bot => "bot-"
    case Cron => "cron-"
    case Web => "web-"
    case User => "user-"
    case Sys => "sys-"
  }

  /** `t` is `s` without the hyphens at its end. */
  predicate IsCutHyphens(s: string, t: string) {
    && t <= s && (t == "" || t[|t| - 1] != '-')
    && forall i :: |t| <= i < |s| ==> s[i] == '-'
  }

  lemma {:induction false} TrimEndMeaning(s: string)
    ensures IsCutHyphens(s, TrimEnd(s))
  {
    if s != [] && s[|s| - 1] == '-' {
      TrimEndMeaning(s[..|s| - 1]);
    }
  }

  /** A plain slug is the category and the sanitised value. A hashed one has as much of that value as
      leaves room for the digest in 48 characters, without hyphens at its end, and the digest. */
  lemma SlugMeaning(lib: Library, o: Owner)
    ensures var s, p := Sanitized(o.raw), Prefix(o.category);
            var room := 39 - |p|;
            if s == lib.lowercase(o.raw) && |p| + |s| <= 48 then SlugOf(lib, o) == p + s
            else
              && 0 <= room
              && IsCutHyphens(if |s| > room then s[..room] else s, Truncated(o))
              && SlugOf(lib, o) == p + (if Truncated(o) == "" then "" else Truncated(o) + "-") + lib.digest(o.raw)
  {
    var s, p, d := Sanitized(o.raw), Prefix(o.category), lib.digest(o.raw);
    PrefixIs(o.category);
    var room := 39 - |p|;
    TrimEndMeaning(if |s| > room then s[..room] else s);
    if IsHashed(lib, o) {
      var t := Truncated(o);
      if t == "" {
        assert p + "" + d == p + d;
      } else {
        assert p + (t + "-") + d == p + t + "-" + d;
      }
    }
  }

  lemma PrefixIs(c: Category)
    ensures Prefix(c) == c.Name() + "-"
  {
  }
}
