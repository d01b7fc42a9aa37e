/** Reading voice notes: the walk over the chunks of a RIFF/WAVE file. */
module WavDecoder {
  import opened Common
  import Utf8

  type Byte = Utf8.Byte

  type Sample = x: int | -0x8000 <= x < 0x8000

  const RIFF: seq<Byte> := [82, 73, 70, 70]
  const WAVE: seq<Byte> := [87, 65, 86, 69]
  const FMT: seq<Byte> := [102, 109, 116, 32]
  const DATA: seq<Byte> := [100, 97, 116, 97]

  datatype Audio = Audio(sampleRate: nat, channels: nat, pcm: seq<Sample>)

  // ---------------------------------------------------------------------
  // Reading.
  // ---------------------------------------------------------------------

  function Le16(s: seq<Byte>): nat
    requires |s| == 2
  {
    s[0] as int + 0x100 * (s[1] as int)
  }

  function Le32(s: seq<Byte>): nat
    requires |s| == 4
  {
    Le16(s[..2]) + 0x1_0000 * Le16(s[2..])
  }

  function SampleOf(s: seq<Byte>): Sample
    requires |s| == 2
  {
    if Le16(s) >= 0x8000 then Le16(s) - 0x1_0000 else Le16(s)
  }

  /** Whole pairs only: an odd byte at the end is dropped. */
  function Samples(data: seq<Byte>): seq<Sample>
    decreases |data|
  {
    if |data| < 2 then [] else [SampleOf(data[..2])] + Samples(data[2..])
  }

  function Absorb(a: Audio, id: seq<Byte>, data: seq<Byte>): Audio {
    if id == FMT && |data| >= 16 then a.(channels := Le16(data[2..4]), sampleRate := Le32(data[4..8]))
    else if id == DATA then a.(pcm := a.pcm + Samples(data))
    else a
  }

  /** The size that the chunk at the front of `s` claims. */
  function ClaimedSize(s: seq<Byte>): nat
    requires |s| >= 8
  {
    Le32(s[4..8])
  }

  /** Takes complete chunks off the front for as long as there are any. */
  function Walk(s: seq<Byte>, a: Audio): Audio
    decreases |s|
  {
    if |s| < 8 || 8 + ClaimedSize(s) > |s| then a
    else Walk(s[8 + ClaimedSize(s)..], Absorb(a, s[..4], s[8..8 + ClaimedSize(s)]))
  }

  const DEFAULTS: Audio := Audio(16000, 1, [])

  predicate IsWave(bytes: seq<Byte>) {
    |bytes| >= 44 && bytes[0..4] == RIFF && bytes[8..12] == WAVE
  }

  function Decoded(bytes: seq<Byte>): Option<Audio> {
    if !IsWave(bytes) then None
    else
      var a := Walk(bytes[12..], DEFAULTS);
      if a.pcm == [] then None else Some(a)
  }

  /** Appends the samples in `data`. */
  method AppendSamples(pcm: seq<Sample>, data: seq<Byte>) returns (r: seq<Sample>)
    ensures r == pcm + Samples(data)
  {
    r := pcm;
    for i := 0 to |data| / 2
      invariant r + Samples(data[2 * i..]) == pcm + Samples(data)
    {
      var rest := data[2 * i..];
      assert rest[2..] == data[2 * (i + 1)..] && rest[..2] == data[2 * i..2 * i + 2];
      assert r + Samples(rest) == r + [SampleOf(rest[..2])] + Samples(rest[2..]);
      r := r + [SampleOf(data[2 * i..2 * i + 2])];
    }
    assert Samples(data[2 * (|data| / 2)..]) == [];
  }

  /** What the walk finds from `pos` on, with `a` found so far. */
  function Ahead(bytes: seq<Byte>, pos: nat, a: Audio): Audio
    requires pos <= |bytes|
  {
    Walk(bytes[pos..], a)
  }

  lemma AheadOne(bytes: seq<Byte>, pos: nat, a: Audio)
    requires pos + 8 <= |bytes|
    ensures var size := Le32(bytes[pos + 4..pos + 8]);
            Ahead(bytes, pos, a) ==
            if pos + 8 + size > |bytes| then a
            else Ahead(bytes, pos + 8 + size, Absorb(a, bytes[pos..pos + 4], bytes[pos + 8..pos + 8 + size]))
  {
    var s, size := bytes[pos..], Le32(bytes[pos + 4..pos + 8]);
    assert s[4..8] == bytes[pos + 4..pos + 8] && s[..4] == bytes[pos..pos + 4];
    if pos + 8 + size <= |bytes| {
      assert s[8..8 + size] == bytes[pos + 8..pos + 8 + size] && s[8 + size..] == bytes[pos + 8 + size..];
    }
  }

  /** One pass of the decoder's loop: the chunk at `pos`, unless it is cut off. */
  method ReadChunk(bytes: seq<Byte>, pos: nat, a: Audio) returns (more: bool, next: nat, a': Audio)
    requires pos + 8 <= |bytes|
    ensures !more ==> Ahead(bytes, pos, a) == a == a'
    ensures more ==> pos < next <= |bytes| && Ahead(bytes, next, a') == Ahead(bytes, pos, a)
  {
    AheadOne(bytes, pos, a);
    var id := bytes[pos..pos + 4];
    var size := Le32(bytes[pos + 4..pos + 8]);
    next := pos + 8;
    if next + size > |bytes| {
      return false, next, a;
    }
    var data := bytes[next..next + size];
    a' := a;
    if id == FMT && |data| >= 16 {
      a' := a.(channels := Le16(data[2..4]), sampleRate := Le32(data[4..8]));
    } else if id == DATA {
      var pcm := AppendSamples(a.pcm, data);
      a' := a.(pcm := pcm);
    }
    assert a' == Absorb(a, id, data);
    return true, next + size, a';
  }

  /** The decoder as it runs, by position; every slice it takes lies inside the input. */
  method DecodeWavPcm(bytes: seq<Byte>) returns (r: Option<Audio>)
    ensures r == Decoded(bytes)
  {
    if |bytes| < 44 || bytes[0..4] != RIFF || bytes[8..12] != WAVE {
      return None;
    }
    var pos: nat, a := 12, Audio(16000, 1, []);
    ghost var goal := Ahead(bytes, 12, DEFAULTS);
    var more := true;
    while more && pos + 8 <= |bytes|
      invariant pos <= |bytes| && Ahead(bytes, pos, a) == goal && (!more ==> a == goal)
      decreases more, |bytes| - pos
    {
      var next;
      more, next, a := ReadChunk(bytes, pos, a);
      if more {
        pos := next;
      }
    }
    assert a == goal;
    r := if a.pcm != [] then Some(a) else None;
  }

  // ---------------------------------------------------------------------
  // Writing: the reference format.
  // ---------------------------------------------------------------------

  function Write16(n: nat): (s: seq<Byte>)
    requires n < 0x1_0000
  {
    [n % 0x100, n / 0x100]
  }

  function Write32(n: nat): (s: seq<Byte>)
    requires n < 0x1_0000_0000
  {
    Write16(n % 0x1_0000) + Write16(n / 0x1_0000)
  }

  lemma Write16RoundTrip(n: nat)
    requires n < 0x1_0000
    ensures Le16(Write16(n)) == n
  {
  }

  lemma Write32RoundTrip(n: nat)
    requires n < 0x1_0000_0000
    ensures |Write32(n)| == 4 && Le32(Write32(n)) == n
  {
    var lo, hi := n % 0x1_0000, n / 0x1_0000;
    assert Write32(n)[..2] == Write16(lo) && Write32(n)[2..] == Write16(hi);
    Write16RoundTrip(lo);
    Write16RoundTrip(hi);
  }

  function WriteSample(x: Sample): seq<Byte> {
    Write16(if x < 0 then x + 0x1_0000 else x)
  }

  function WriteSamples(pcm: seq<Sample>): (s: seq<Byte>)
    ensures |s| == 2 * |pcm|
  {
    if pcm == [] then [] else WriteSample(pcm[0]) + WriteSamples(pcm[1..])
  }

  lemma SampleRoundTrip(x: Sample)
    ensures SampleOf(WriteSample(x)) == x
  {
    var v := if x < 0 then x + 0x1_0000 else x;
    Write16RoundTrip(v);
  }

  lemma {:induction false} SamplesRoundTrip(pcm: seq<Sample>)
    ensures Samples(WriteSamples(pcm)) == pcm
  {
    if pcm != [] {
      var s := WriteSamples(pcm);
      SampleRoundTrip(pcm[0]);
      SamplesRoundTrip(pcm[1..]);
      assert s[..2] == WriteSample(pcm[0]) && s[2..] == WriteSamples(pcm[1..]);
    }
  }

  datatype Chunk = Chunk(id: seq<Byte>, data: seq<Byte>) {
    predicate IsChunk() {
      |id| == 4 && |data| < 0x1_0000_0000
    }
    predicate IsKnown() {
      id == FMT || id == DATA
    }
  }

  predicate AreChunks(chunks: seq<Chunk>) {
    forall i :: 0 <= i < |chunks| ==> chunks[i].IsChunk()
  }

  function WriteChunk(c: Chunk): (s: seq<Byte>)
    requires c.IsChunk()
    ensures |s| == 8 + |c.data|
  {
    c.id + Write32(|c.data|) + c.data
  }

  function WriteChunks(chunks: seq<Chunk>): seq<Byte>
    requires AreChunks(chunks)
  {
    if chunks == [] then [] else WriteChunk(chunks[0]) + WriteChunks(chunks[1..])
  }

  /** A file around any body; the decoder ignores the total size `total`. */
  function Riff(total: seq<Byte>, body: seq<Byte>): seq<Byte>
    requires |total| == 4
  {
    RIFF + total + WAVE + body
  }

  /** The 16 bytes of a PCM format chunk. */
  function Format(sampleRate: nat, channels: nat): (s: seq<Byte>)
    requires sampleRate < 0x1_0000_0000 && channels < 0x1_0000
    ensures |s| == 16
  {
    Write16(1) + Write16(channels) + Write32(sampleRate)
    + Write32(sampleRate * channels * 2 % 0x1_0000_0000) + Write16(channels * 2 % 0x1_0000) + Write16(16)
  }

  predicate IsEncodable(a: Audio) {
    && a.pcm != [] && 2 * |a.pcm| < 0x1_0000_0000
    && a.sampleRate < 0x1_0000_0000 && a.channels < 0x1_0000
  }

  function FormatChunk(a: Audio): (c: Chunk)
    requires IsEncodable(a)
    ensures c.IsChunk()
  {
    Chunk(FMT, Format(a.sampleRate, a.channels))
  }

  function DataChunk(a: Audio): (c: Chunk)
    requires IsEncodable(a)
    ensures c.IsChunk()
  {
    Chunk(DATA, WriteSamples(a.pcm))
  }

  // ---------------------------------------------------------------------
  // The walk on written chunks.
  // ---------------------------------------------------------------------

  lemma WalkOne(c: Chunk, rest: seq<Byte>, a: Audio)
    requires c.IsChunk()
    ensures Walk(WriteChunk(c) + rest, a) == Walk(rest, Absorb(a, c.id, c.data))
  {
    var s, n := WriteChunk(c) + rest, |c.data|;
    Write32RoundTrip(n);
    assert s[..4] == c.id && s[4..8] == Write32(n) && s[8..8 + n] == c.data && s[8 + n..] == rest;
  }

  function AbsorbAll(a: Audio, chunks: seq<Chunk>): Audio
    decreases |chunks|
  {
    if chunks == [] then a else AbsorbAll(Absorb(a, chunks[0].id, chunks[0].data), chunks[1..])
  }

  /** The walk sees exactly the chunks that were written, and then what follows them. */
  lemma {:induction false} WalkWritten(chunks: seq<Chunk>, rest: seq<Byte>, a: Audio)
    requires AreChunks(chunks)
    ensures Walk(WriteChunks(chunks) + rest, a) == Walk(rest, AbsorbAll(a, chunks))
    decreases |chunks|
  {
    if chunks == [] {
      assert WriteChunks(chunks) + rest == rest;
    } else {
      var c, more := chunks[0], WriteChunks(chunks[1..]) + rest;
      WalkOne(c, more, a);
      ConcatAssoc(WriteChunk(c), WriteChunks(chunks[1..]), rest);
      WalkWritten(chunks[1..], rest, Absorb(a, c.id, c.data));
    }
  }

  lemma RiffBody(total: seq<Byte>, body: seq<Byte>)
    requires |total| == 4 && |body| >= 32
    ensures IsWave(Riff(total, body)) && Riff(total, body)[12..] == body
  {
    var s := Riff(total, body);
    assert s[0..4] == RIFF && s[8..12] == WAVE;
  }

  /** What a file of chunks decodes to. */
  lemma DecodedChunks(total: seq<Byte>, chunks: seq<Chunk>)
    requires |total| == 4 && AreChunks(chunks) && |WriteChunks(chunks)| >= 32
    ensures var a := AbsorbAll(DEFAULTS, chunks);
            Decoded(Riff(total, WriteChunks(chunks))) == if a.pcm == [] then None else Some(a)
  {
    var body := WriteChunks(chunks);
    RiffBody(total, body);
    WalkWritten(chunks, [], DEFAULTS);
    assert body + [] == body;
  }

  // ---------------------------------------------------------------------
  // Round trip.
  // ---------------------------------------------------------------------

  function Known(chunks: seq<Chunk>): seq<Chunk> {
    if chunks == [] then [] else (if chunks[0].IsKnown() then [chunks[0]] else []) + Known(chunks[1..])
  }

  lemma {:induction false} OnlyKnownCount(a: Audio, chunks: seq<Chunk>)
    ensures AbsorbAll(a, chunks) == AbsorbAll(a, Known(chunks))
    decreases |chunks|
  {
    if chunks != [] {
      var a' := Absorb(a, chunks[0].id, chunks[0].data);
      OnlyKnownCount(a', chunks[1..]);
      if chunks[0].IsKnown() {
        assert Known(chunks)[1..] == Known(chunks[1..]);
      } else {
        assert Known(chunks) == Known(chunks[1..]);
      }
    }
  }

  lemma FormatRoundTrip(a: Audio, b: Audio)
    requires IsEncodable(a)
    ensures Absorb(b, FMT, Format(a.sampleRate, a.channels)) == b.(sampleRate := a.sampleRate, channels := a.channels)
  {
    var f := Format(a.sampleRate, a.channels);
    assert f[2..4] == Write16(a.channels);
    assert f[4..8] == Write32(a.sampleRate);
    Write16RoundTrip(a.channels);
    Write32RoundTrip(a.sampleRate);
  }

  lemma AbsorbBoth(a: Audio)
    requires IsEncodable(a)
    ensures AbsorbAll(DEFAULTS, [FormatChunk(a), DataChunk(a)]) == a
  {
    var chunks := [FormatChunk(a), DataChunk(a)];
    FormatRoundTrip(a, DEFAULTS);
    var b := DEFAULTS.(sampleRate := a.sampleRate, channels := a.channels);
    DataRoundTrip(a, b);
    assert chunks[1..] == [DataChunk(a)] && chunks[1..][1..] == [];
    assert AbsorbAll(a, chunks[1..][1..]) == a;
    assert AbsorbAll(b, chunks[1..]) == a;
  }

  lemma DataRoundTrip(a: Audio, b: Audio)
    requires IsEncodable(a) && b == DEFAULTS.(sampleRate := a.sampleRate, channels := a.channels)
    ensures Absorb(b, DATA, WriteSamples(a.pcm)) == a
  {
    SamplesRoundTrip(a.pcm);
    assert b.pcm + a.pcm == a.pcm;
  }

  /** A file whose known chunks are one format and one data chunk, among any others in any
      places, decodes to exactly the audio it was written from. */
  lemma WavRoundTrip(total: seq<Byte>, a: Audio, chunks: seq<Chunk>)
    requires |total| == 4 && IsEncodable(a) && AreChunks(chunks)
    requires Known(chunks) == [FormatChunk(a), DataChunk(a)]
    ensures Decoded(Riff(total, WriteChunks(chunks))) == Some(a)
  {
    OnlyKnownCount(DEFAULTS, chunks);
    AbsorbBoth(a);
    KnownLength(chunks);
    WrittenPair(a);
    DecodedChunks(total, chunks);
  }

  lemma WrittenPair(a: Audio)
    requires IsEncodable(a)
    ensures |WriteChunks([FormatChunk(a), DataChunk(a)])| >= 34
  {
    var chunks := [FormatChunk(a), DataChunk(a)];
    assert chunks[1..] == [DataChunk(a)];
    assert |WriteChunks(chunks[1..])| >= 10;
  }

  lemma {:induction false} KnownLength(chunks: seq<Chunk>)
    requires AreChunks(chunks)
    ensures AreChunks(Known(chunks)) && |WriteChunks(Known(chunks))| <= |WriteChunks(chunks)|
    decreases |chunks|
  {
    if chunks != [] {
      KnownLength(chunks[1..]);
      if chunks[0].IsKnown() {
        assert Known(chunks)[1..] == Known(chunks[1..]);
      } else {
        assert Known(chunks) == Known(chunks[1..]);
      }
    }
  }

  /** Unknown chunks change nothing, in whatever file they stand. */
  lemma UnknownChunksChangeNothing(total: seq<Byte>, chunks: seq<Chunk>)
    requires |total| == 4 && AreChunks(chunks)
    ensures AreChunks(Known(chunks))
    ensures |WriteChunks(Known(chunks))| >= 32 ==>
              Decoded(Riff(total, WriteChunks(chunks))) == Decoded(Riff(total, WriteChunks(Known(chunks))))
  {
    KnownLength(chunks);
    if |WriteChunks(Known(chunks))| >= 32 {
      OnlyKnownCount(DEFAULTS, chunks);
      DecodedChunks(total, chunks);
      DecodedChunks(total, Known(chunks));
    }
  }

  // ---------------------------------------------------------------------
  // The pad byte that RIFF puts after a chunk of odd size.
  // ---------------------------------------------------------------------

  lemma {:induction false} SampleCount(data: seq<Byte>)
    ensures 2 * |Samples(data)| <= |data|
    decreases |data|
  {
    if |data| >= 2 {
      SampleCount(data[2..]);
    }
  }

  /** The walk finds no more samples than there are bytes for. */
  lemma {:induction false} WalkBound(s: seq<Byte>, a: Audio)
    ensures 2 * |Walk(s, a).pcm| <= 2 * |a.pcm| + |s|
    decreases |s|
  {
    if |s| >= 8 && 8 + ClaimedSize(s) <= |s| {
      var data := s[8..8 + ClaimedSize(s)];
      SampleCount(data);
      WalkBound(s[8 + ClaimedSize(s)..], Absorb(a, s[..4], data));
    }
  }

  /** A chunk as RIFF stores it. */
  function WritePadded(c: Chunk): seq<Byte>
    requires c.IsChunk()
  {
    WriteChunk(c) + if |c.data| % 2 == 1 then [0] else []
  }

  function FileWithPadded(total: seq<Byte>, a: Audio, c: Chunk): seq<Byte>
    requires |total| == 4 && IsEncodable(a) && c.IsChunk()
  {
    Riff(total, WriteChunk(FormatChunk(a)) + (WritePadded(c) + WriteChunk(DataChunk(a))))
  }

  /** What the walk takes for a chunk header at a pad byte. */
  lemma MisreadHeader(a: Audio, s: seq<Byte>)
    requires IsEncodable(a) && s == [0] + WriteChunk(DataChunk(a))
    ensures |s| == 2 * |a.pcm| + 9 && s[..4][0] == 0 && ClaimedSize(s) >= 97
  {
    assert s[4] == DATA[3] == 97;
    assert s[4..8][..2][0] == s[4];
  }

  /** Past a pad byte the walk is out of step: it never finds all the samples. */
  lemma OutOfStep(a: Audio, b: Audio)
    requires IsEncodable(a) && b.pcm == []
    ensures |Walk([0] + WriteChunk(DataChunk(a)), b).pcm| < |a.pcm|
  {
    var s := [0] + WriteChunk(DataChunk(a));
    MisreadHeader(a, s);
    WalkPast(s, b);
  }

  /** A chunk that does not start like a known one brings no samples. */
  lemma WalkPast(s: seq<Byte>, b: Audio)
    requires |s| >= 8 && s[..4][0] == 0 && b.pcm == []
    ensures 2 * |Walk(s, b).pcm| == 0 || 2 * |Walk(s, b).pcm| + 8 + ClaimedSize(s) <= |s|
  {
    var size := ClaimedSize(s);
    if 8 + size <= |s| {
      assert Absorb(b, s[..4], s[8..8 + size]) == b;
      WalkBound(s[8 + size..], b);
    }
  }

  /** The walk over a file with one chunk between format and data. */
  lemma WalkPadded(total: seq<Byte>, a: Audio, c: Chunk, b: Audio)
    requires |total| == 4 && IsEncodable(a) && c.IsChunk() && !c.IsKnown()
    requires b == DEFAULTS.(sampleRate := a.sampleRate, channels := a.channels)
    ensures var pad: seq<Byte> := if |c.data| % 2 == 1 then [0] else [];
            var found := Walk(pad + WriteChunk(DataChunk(a)), b);
            Decoded(FileWithPadded(total, a, c)) == if found.pcm == [] then None else Some(found)
  {
    var f, d := WriteChunk(FormatChunk(a)), WriteChunk(DataChunk(a));
    var pad: seq<Byte> := if |c.data| % 2 == 1 then [0] else [];
    var tail := WritePadded(c) + d;
    assert tail == WriteChunk(c) + (pad + d);
    RiffBody(total, f + tail);
    WalkOne(FormatChunk(a), tail, DEFAULTS);
    FormatRoundTrip(a, DEFAULTS);
    WalkOne(c, pad + d, b);
  }

  /** One sample behind a `LIST` chunk of one byte and its padding: the sample is not found. */
  lemma OddChunkHidesData(total: seq<Byte>)
    requires |total| == 4
    ensures Decoded(FileWithPadded(total, Audio(16000, 1, [5]), Chunk([76, 73, 83, 84], [0]))) == None
  {
    var a, c := Audio(16000, 1, [5]), Chunk([76, 73, 83, 84], [0]);
    assert c.id[0] != FMT[0] && c.id[0] != DATA[0];
    WalkPadded(total, a, c, DEFAULTS);
    OutOfStep(a, DEFAULTS);
  }

  /** An unknown chunk stored with its padding in front of the data is harmless exactly when
      its size is even: the decoder does not skip the pad byte. */
  lemma PaddedChunkIff(total: seq<Byte>, a: Audio, c: Chunk)
    requires |total| == 4 && IsEncodable(a) && c.IsChunk() && !c.IsKnown()
    ensures Decoded(FileWithPadded(total, a, c)) == Some(a) <==> |c.data| % 2 == 0
  {
    var b := DEFAULTS.(sampleRate := a.sampleRate, channels := a.channels);
    WalkPadded(total, a, c, b);
    if |c.data| % 2 == 0 {
      var d := WriteChunk(DataChunk(a));
      WalkOne(DataChunk(a), [], b);
      assert d + [] == d && [] + d == d;
      DataRoundTrip(a, b);
    } else {
      OutOfStep(a, b);
    }
  }

  // ---------------------------------------------------------------------
  // Every input.
  // ---------------------------------------------------------------------

  /** One sample per whole pair: its low byte, its high byte, in two's complement. */
  lemma {:induction false} SamplesMeaning(data: seq<Byte>, k: nat)
    ensures |Samples(data)| == |data| / 2
    ensures k < |data| / 2 ==>
              var v := data[2 * k] as int + 256 * (data[2 * k + 1] as int);
              Samples(data)[k] == if v >= 32768 then v - 65536 else v
    decreases |data|
  {
    if |data| >= 2 {
      SamplesMeaning(data[2..], if k == 0 then 0 else k - 1);
      if 0 < k < |data| / 2 {
        assert data[2..][2 * (k - 1)] == data[2 * k] && data[2..][2 * (k - 1) + 1] == data[2 * k + 1];
      }
    }
  }

  /** The samples of the first `n` chunks, in order. */
  function Sound(chunks: seq<Chunk>, n: nat): seq<Sample>
    requires n <= |chunks|
  {
    if n == 0 then []
    else Sound(chunks, n - 1) + if chunks[n - 1].id == [100, 97, 116, 97] then Samples(chunks[n - 1].data) else []
  }

  /** A format chunk that is long enough to be read. */
  predicate IsFormat(c: Chunk) {
    c.id == [102, 109, 116, 32] && |c.data| >= 16
  }

  ghost predicate IsLastFormat(chunks: seq<Chunk>, r: nat, n: nat) {
    r < n <= |chunks| && IsFormat(chunks[r]) && forall k :: r < k < n ==> !IsFormat(chunks[k])
  }

  predicate HasFormatOf(a: Audio, data: seq<Byte>)
    requires |data| >= 16
  {
    && a.channels == data[2] as int + 256 * (data[3] as int)
    && a.sampleRate == data[4] as int + 256 * (data[5] as int) + 65536 * (data[6] as int) + 16777216 * (data[7] as int)
  }

  /** Rate and channels of the last readable format chunk, or 16000 and 1, and all samples. */
  ghost predicate IsHeard(chunks: seq<Chunk>, n: nat, a: Audio)
    requires n <= |chunks|
  {
    && a.pcm == Sound(chunks, n)
    && (|| (a.sampleRate == 16000 && a.channels == 1 && forall k :: 0 <= k < n ==> !IsFormat(chunks[k]))
        || (exists r: nat :: IsLastFormat(chunks, r, n) && HasFormatOf(a, chunks[r].data)))
  }

  lemma {:induction false} AbsorbSnoc(a: Audio, chunks: seq<Chunk>, c: Chunk)
    ensures AbsorbAll(a, chunks + [c]) == Absorb(AbsorbAll(a, chunks), c.id, c.data)
    decreases |chunks|
  {
    var all := chunks + [c];
    if chunks == [] {
      assert all[1..] == [];
    } else {
      assert all[1..] == chunks[1..] + [c];
      AbsorbSnoc(Absorb(a, chunks[0].id, chunks[0].data), chunks[1..], c);
    }
  }

  lemma FormatIsRead(a: Audio, c: Chunk)
    requires IsFormat(c)
    ensures HasFormatOf(Absorb(a, c.id, c.data), c.data) && Absorb(a, c.id, c.data).pcm == a.pcm
  {
    var d := c.data;
    assert d[2..4][0] == d[2] && d[2..4][1] == d[3];
    assert d[4..8][..2] == d[4..6] && d[4..8][2..] == d[6..8];
  }

  lemma HeardStep(chunks: seq<Chunk>, n: nat, a: Audio)
    requires n < |chunks| && IsHeard(chunks, n, a)
    ensures IsHeard(chunks, n + 1, Absorb(a, chunks[n].id, chunks[n].data))
  {
    var a' := Absorb(a, chunks[n].id, chunks[n].data);
    assert Sound(chunks, n) + [] == Sound(chunks, n);
    if IsFormat(chunks[n]) {
      FormatIsRead(a, chunks[n]);
      assert IsLastFormat(chunks, n, n + 1);
      assert chunks[n].id[0] != 100;
    } else if r: nat :| IsLastFormat(chunks, r, n) && HasFormatOf(a, chunks[r].data) {
      assert IsLastFormat(chunks, r, n + 1) && HasFormatOf(a', chunks[r].data);
    }
  }

  lemma {:induction false} AbsorbedIsHeard(chunks: seq<Chunk>, n: nat)
    requires n <= |chunks|
    ensures IsHeard(chunks, n, AbsorbAll(DEFAULTS, chunks[..n]))
  {
    if n > 0 {
      AbsorbedIsHeard(chunks, n - 1);
      assert chunks[..n] == chunks[..n - 1] + [chunks[n - 1]];
      AbsorbSnoc(DEFAULTS, chunks[..n - 1], chunks[n - 1]);
      HeardStep(chunks, n - 1, AbsorbAll(DEFAULTS, chunks[..n - 1]));
    }
  }

  /** No complete chunk is left. */
  predicate IsIncomplete(rest: seq<Byte>) {
    |rest| < 8 || 8 + Le32(rest[4..8]) > |rest|
  }

  lemma Le16Bound(s: seq<Byte>)
    requires |s| == 2
    ensures Le16(s) < 0x1_0000 && Write16(Le16(s)) == s
  {
    var lo: int, hi: int := s[0], s[1];
    assert (lo + 0x100 * hi) / 0x100 == hi && (lo + 0x100 * hi) % 0x100 == lo;
  }

  lemma Le32Bound(s: seq<Byte>)
    requires |s| == 4
    ensures Le32(s) < 0x1_0000_0000 && Write32(Le32(s)) == s
  {
    var lo, hi := Le16(s[..2]), Le16(s[2..]);
    Le16Bound(s[..2]);
    Le16Bound(s[2..]);
    assert Le32(s) / 0x1_0000 == hi && Le32(s) % 0x1_0000 == lo;
    assert s == s[..2] + s[2..];
  }

  /** Every body is a sequence of complete chunks and a rest that holds none. */
  lemma {:induction false} Chunks(s: seq<Byte>) returns (chunks: seq<Chunk>, rest: seq<Byte>)
    ensures AreChunks(chunks) && IsIncomplete(rest) && s == WriteChunks(chunks) + rest
    decreases |s|
  {
    if IsIncomplete(s) {
      chunks, rest := [], s;
      assert WriteChunks([]) + s == s;
    } else {
      var size := Le32(s[4..8]);
      Le32Bound(s[4..8]);
      var first := Chunk(s[..4], s[8..8 + size]);
      var later;
      later, rest := Chunks(s[8 + size..]);
      chunks := [first] + later;
      assert chunks[1..] == later;
      assert WriteChunk(first) == s[..8 + size];
      assert s == s[..8 + size] + s[8 + size..];
    }
  }

  /** What any input decodes to: nothing without the two marks, 44 bytes and a sample; otherwise what
      its complete chunks say. */
  lemma DecodedMeaning(bytes: seq<Byte>) returns (chunks: seq<Chunk>, rest: seq<Byte>, a: Audio)
    ensures |bytes| >= 44 && bytes[..4] == [82, 73, 70, 70] && bytes[8..12] == [87, 65, 86, 69] ==>
              && AreChunks(chunks) && IsIncomplete(rest) && bytes[12..] == WriteChunks(chunks) + rest
              && IsHeard(chunks, |chunks|, a)
              && Decoded(bytes) == if a.pcm == [] then None else Some(a)
    ensures !(|bytes| >= 44 && bytes[..4] == [82, 73, 70, 70] && bytes[8..12] == [87, 65, 86, 69]) ==> Decoded(bytes) == None
  {
    chunks, rest, a := [], [], DEFAULTS;
    if |bytes| >= 44 {
      assert bytes[0..4] == bytes[..4];
      chunks, rest := Chunks(bytes[12..]);
      a := AbsorbAll(DEFAULTS, chunks);
      WalkWritten(chunks, rest, DEFAULTS);
      AbsorbedIsHeard(chunks, |chunks|);
      assert chunks[..|chunks|] == chunks;
      assert Walk(rest, a) == a;
    }
  }
}
