/** UTF-8 as the standard defines it, and as the incremental decoder sees it. */
module Utf8 {
  import opened Common

  type Byte = b: int | 0 <= b < 256

  const REPLACEMENT: char := '\U{FFFD}'

  // ---------------------------------------------------------------------
  // The grammar: section 4 of RFC 3629 (Table 3-7 of the Unicode Standard).
  // ---------------------------------------------------------------------

  predicate IsTail(b: Byte) {
    0x80 <= b <= 0xBF
  }

  /** `s` is the encoding of exactly one scalar value. */
  predicate WellFormed(s: seq<Byte>) {
    || (|s| == 1 && s[0] <= 0x7F)
    || (|s| == 2 && 0xC2 <= s[0] <= 0xDF && IsTail(s[1]))
    || (|s| == 3 && IsTail(s[1]) && IsTail(s[2])
        && 0xE0 <= s[0] <= 0xEF
        && (s[0] == 0xE0 ==> 0xA0 <= s[1])
        && (s[0] == 0xED ==> s[1] <= 0x9F))
    || (|s| == 4 && IsTail(s[1]) && IsTail(s[2]) && IsTail(s[3])
        && 0xF0 <= s[0] <= 0xF4
        && (s[0] == 0xF0 ==> 0x90 <= s[1])
        && (s[0] == 0xF4 ==> s[1] <= 0x8F))
  }

  function ScalarOf(s: seq<Byte>): char
    requires WellFormed(s)
  {
    var lead: int := s[0];
    if |s| == 1 then lead as char
    else if |s| == 2 then Append(lead - 0xC0, s[1]) as char
    else if |s| == 3 then Append(Append(lead - 0xE0, s[1]), s[2]) as char
    else Append(Append(Append(lead - 0xF0, s[1]), s[2]), s[3]) as char
  }

  /** Appends the six payload bits of a tail byte. */
  function Append(bits: int, tail: Byte): int {
    0x40 * bits + tail - 0x80
  }

  lemma AppendInverse(bits: int, tail: Byte)
    requires IsTail(tail)
    ensures Append(bits, tail) / 0x40 == bits && Append(bits, tail) % 0x40 == tail - 0x80
  {
  }

  /** The inverse direction: the one encoding a scalar value has. */
  function EncodeScalar(c: char): seq<Byte> {
    var v := c as int;
    var v1 := v / 0x40;
    var v2 := v1 / 0x40;
    var v3 := v2 / 0x40;
    if v <= 0x7F then [v]
    else if v <= 0x7FF then [0xC0 + v1, 0x80 + v % 0x40]
    else if v <= 0xFFFF then [0xE0 + v2, 0x80 + v1 % 0x40, 0x80 + v % 0x40]
    else [0xF0 + v3, 0x80 + v2 % 0x40, 0x80 + v1 % 0x40, 0x80 + v % 0x40]
  }

  function Encode(text: string): seq<Byte> {
    if text == [] then [] else EncodeScalar(text[0]) + Encode(text[1..])
  }

  lemma EncodeCons(c: char, text: string)
    ensures Encode([c] + text) == EncodeScalar(c) + Encode(text)
  {
    assert ([c] + text)[1..] == text;
  }

  lemma ScalarRoundTrip(c: char)
    ensures WellFormed(EncodeScalar(c)) && ScalarOf(EncodeScalar(c)) == c
  {
    var e := EncodeScalar(c);
    assert |e| <= 4;
  }

  lemma BytesRoundTrip(s: seq<Byte>)
    requires WellFormed(s)
    ensures EncodeScalar(ScalarOf(s)) == s
  {
    var lead: int := s[0];
    if |s| == 2 {
      AppendInverse(lead - 0xC0, s[1]);
    } else if |s| == 3 {
      var upper := Append(lead - 0xE0, s[1]);
      AppendInverse(lead - 0xE0, s[1]);
      AppendInverse(upper, s[2]);
    } else if |s| == 4 {
      var upper := Append(lead - 0xF0, s[1]);
      AppendInverse(lead - 0xF0, s[1]);
      AppendInverse(upper, s[2]);
      AppendInverse(Append(upper, s[2]), s[3]);
    }
  }

  // ---------------------------------------------------------------------
  // Reference: one-shot lossy decoding with one replacement character per
  // maximal subpart (section 3.9 of the Unicode Standard, D93b).
  // ---------------------------------------------------------------------

  /** Some completion of `p` is well formed. */
  ghost predicate Extendable(p: seq<Byte>) {
    exists q: seq<Byte> :: WellFormed(p + q)
  }

  /** No non-empty prefix of `s` encodes a scalar value. */
  ghost predicate IllFormedStart(s: seq<Byte>) {
    forall k :: 0 < k <= |s| ==> !WellFormed(s[..k])
  }

  /** `k` is the length of the maximal subpart that an ill-formed `s` starts with. */
  ghost predicate IsMaximalSubpart(s: seq<Byte>, k: nat) {
    && 0 < k <= |s|
    && (k == 1 || Extendable(s[..k]))
    && forall m :: k < m <= |s| ==> !Extendable(s[..m])
  }

  /** `text` is what lossy decoding of `s` yields, by the standard's rules alone. */
  ghost predicate LossyDecoding(s: seq<Byte>, text: string)
    decreases |s|
  {
    if s == [] then text == []
    else
      text != [] &&
      ((exists k :: 0 < k <= |s| && WellFormed(s[..k]) && text[0] == ScalarOf(s[..k])
                    && LossyDecoding(s[k..], text[1..]))
       || (IllFormedStart(s) && text[0] == REPLACEMENT
           && exists k: nat :: IsMaximalSubpart(s, k) && LossyDecoding(s[k..], text[1..])))
  }

  // ---------------------------------------------------------------------
  // The validator as it runs: one look at the front of the input.
  // ---------------------------------------------------------------------

  /** What the front of the input is: a scalar of `len` bytes, `len` bytes that no
      continuation can repair, or a sequence that ended too early to tell. */
  datatype Verdict = Good(len: nat) | Bad(len: nat) | Cut

  function Width(b: Byte): nat {
    if b <= 0x7F then 1
    else if 0xC2 <= b <= 0xDF then 2
    else if 0xE0 <= b <= 0xEF then 3
    else if 0xF0 <= b <= 0xF4 then 4
    else 0
  }

  predicate SecondFits(first: Byte, second: Byte) {
    if first == 0xE0 then 0xA0 <= second <= 0xBF
    else if first == 0xED then 0x80 <= second <= 0x9F
    else if first == 0xF0 then 0x90 <= second <= 0xBF
    else if first == 0xF4 then 0x80 <= second <= 0x8F
    else IsTail(second)
  }

  function Look(s: seq<Byte>): Verdict
    requires s != []
  {
    var w := Width(s[0]);
    if w == 0 then Bad(1)
    else if w == 1 then Good(1)
    else if |s| < 2 then Cut
    else if !SecondFits(s[0], s[1]) then Bad(1)
    else if w == 2 then Good(2)
    else if |s| < 3 then Cut
    else if !IsTail(s[2]) then Bad(2)
    else if w == 3 then Good(3)
    else if |s| < 4 then Cut
    else if !IsTail(s[3]) then Bad(3)
    else Good(4)
  }

  /** The validator's verdicts in the grammar's own terms. */
  lemma LookMeaning(s: seq<Byte>)
    requires s != []
    ensures match Look(s)
            case Good(n) => 0 < n <= |s| && WellFormed(s[..n])
            case Bad(n) => 0 < n <= 3 && n <= |s| && IllFormedStart(s) && IsMaximalSubpart(s, n)
            case Cut => |s| <= 3 && IllFormedStart(s) && IsMaximalSubpart(s, |s|) && Extendable(s)
  {
    match Look(s)
    case Good(n) =>
    case Bad(n) =>
      BadCannotGrow(s);
      if n > 1 {
        CompletionExists(s[..n]);
      }
    case Cut =>
      CompletionExists(s);
      assert s[..|s|] == s;
  }

  lemma CompletionExists(p: seq<Byte>)
    requires p != [] && Look(p).Cut?
    ensures Extendable(p)
  {
    var w := Width(p[0]);
    var second := if p[0] == 0xE0 then 0xA0 else if p[0] == 0xF0 then 0x90 else 0x80;
    var full: seq<Byte> := [p[0], if |p| > 1 then p[1] else second, if |p| > 2 then p[2] else 0x80, 0x80];
    var q := full[|p|..w];
    assert p + q == full[..w];
    assert WellFormed(p + q);
  }

  lemma BadCannotGrow(s: seq<Byte>)
    requires s != [] && Look(s).Bad?
    ensures forall m :: Look(s).len < m <= |s| ==> !Extendable(s[..m])
    ensures IllFormedStart(s)
  {
    var n := Look(s).len;
    forall m | n < m <= |s|
      ensures !Extendable(s[..m])
    {
      forall q: seq<Byte>
        ensures !WellFormed(s[..m] + q)
      {
        var t := s[..m] + q;
        assert t[0] == s[0] && t[1] == s[1];
        assert n >= 2 ==> t[2] == s[2];
        assert n >= 3 ==> t[3] == s[3];
      }
    }
  }

  /** A verdict other than Cut is never revised by more input. */
  lemma LookIsStable(s: seq<Byte>, t: seq<Byte>)
    requires s != [] && !Look(s).Cut?
    ensures Look(s + t) == Look(s)
    ensures Look(s).len <= |s|
    ensures Look(s).Good? ==> (s + t)[..Look(s).len] == s[..Look(s).len]
    ensures (s + t)[Look(s).len..] == s[Look(s).len..] + t
  {
    assert (s + t)[0] == s[0];
    if |s| > 1 { assert (s + t)[1] == s[1]; }
    if |s| > 2 { assert (s + t)[2] == s[2]; }
    if |s| > 3 { assert (s + t)[3] == s[3]; }
  }

  /** The verdict on an encoded scalar value, whatever follows it. */
  lemma LookAtEncoded(c: char, rest: seq<Byte>)
    ensures var e := EncodeScalar(c);
            Look(e + rest) == Good(|e|) && WellFormed(e) && ScalarOf(e) == c
  {
    var e := EncodeScalar(c);
    ScalarRoundTrip(c);
    assert Look(e) == Good(|e|);
    LookIsStable(e, rest);
  }

  // ---------------------------------------------------------------------
  // `std::str::from_utf8`.
  // ---------------------------------------------------------------------

  datatype Check = Valid(text: string) | Error(validUpTo: nat, errorLen: Option<nat>)

  function FromUtf8(s: seq<Byte>): Check
    decreases |s|
  {
    if s == [] then Valid("")
    else match Look(s)
      case Bad(n) => Error(0, Some(n))
      case Cut => Error(0, None)
      case Good(n) =>
        LookMeaning(s);
        match FromUtf8(s[n..])
        case Valid(t) => Valid([ScalarOf(s[..n])] + t)
        case Error(v, e) => Error(n + v, e)
  }

  /** A string's own bytes are valid and decode to it: no replacement character is invented. */
  lemma {:induction false} FromUtf8OfEncode(text: string)
    ensures FromUtf8(Encode(text)) == Valid(text)
  {
    if text != [] {
      var e, rest := EncodeScalar(text[0]), Encode(text[1..]);
      LookAtEncoded(text[0], rest);
      assert (e + rest)[|e|..] == rest && (e + rest)[..|e|] == e;
      FromUtf8OfEncode(text[1..]);
      assert text == [text[0]] + text[1..];
    }
  }

  lemma EncodeOfHead(s: seq<Byte>, n: nat, rest: string)
    requires n <= |s| && WellFormed(s[..n]) && Encode(rest) == s[n..]
    ensures Encode([ScalarOf(s[..n])] + rest) == s
  {
    BytesRoundTrip(s[..n]);
    EncodeCons(ScalarOf(s[..n]), rest);
  }

  /** Validity is exactly being some string's encoding. */
  lemma {:induction false} ValidIsEncoding(s: seq<Byte>)
    requires FromUtf8(s).Valid?
    ensures Encode(FromUtf8(s).text) == s
    decreases |s|
  {
    if s != [] {
      LookMeaning(s);
      ValidIsEncoding(s[Look(s).len..]);
      EncodeOfHead(s, Look(s).len, FromUtf8(s[Look(s).len..]).text);
    }
  }
}
