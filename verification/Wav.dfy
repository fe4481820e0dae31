/**
 Telephony WAV files: the two writers (wrapWAV in internal/recording/archive.go, writeTelephonyWAV in
 internal/tts/deepgram.go) and the chunk-walking reader (readTelephonyWAV in internal/sip/call.go).
 */
module Wav {
  import opened Basics

  const RIFF: bytes := [0x52, 0x49, 0x46, 0x46]
  const WAVE: bytes := [0x57, 0x41, 0x56, 0x45]
  const FMT: bytes := [0x66, 0x6d, 0x74, 0x20]
  const DATA: bytes := [0x64, 0x61, 0x74, 0x61]

  const SAMPLE_RATE: nat := 8000
  const CHANNELS: nat := 1
  const BITS: nat := 16

  // ---- little-endian numbers ----

  /** The low k bytes of n, as a conversion to an unsigned type and binary.Write leave them. */
  function LeBytes(n: nat, k: nat): (b: bytes)
    ensures |b| == k
    decreases k
  {
    if k == 0 then [] else [n % 256] + LeBytes(n / 256, k - 1)
  }

  function Le16(n: nat): bytes { LeBytes(n, 2) }

  function Le32(n: nat): bytes { LeBytes(n, 4) }

  /** The little-endian number at offset i. */
  function U16(b: bytes, i: nat): (n: nat)
    requires i + 2 <= |b|
    ensures n < 0x1_0000
  {
    var lo: int, hi: int := b[i], b[i + 1];
    lo + 256 * hi
  }

  function U32(b: bytes, i: nat): (n: nat)
    requires i + 4 <= |b|
    ensures n < 0x1_0000_0000
  {
    U16(b, i) + 0x1_0000 * U16(b, i + 2)
  }

  lemma U16Le16(n: nat, b: bytes, i: nat)
    requires i + 2 <= |b| && b[i..i + 2] == Le16(n)
    ensures U16(b, i) == n % 0x1_0000
  {
    assert Le16(n) == [n % 256] + LeBytes(n / 256, 1);
    assert LeBytes(n / 256, 1) == [n / 256 % 256] + LeBytes(n / 256 / 256, 0);
    assert b[i] == b[i..i + 2][0] && b[i + 1] == b[i..i + 2][1];
    TwoOctets(n);
  }

  lemma TwoOctets(n: nat)
    ensures n % 0x1_0000 == n % 256 + 256 * (n / 256 % 256)
  {
    var a := n / 256;
    assert n == 0x1_0000 * (a / 256) + (n % 256 + 256 * (a % 256));
  }

  lemma U32Le32(n: nat, b: bytes, i: nat)
    requires i + 4 <= |b| && b[i..i + 4] == Le32(n)
    ensures U32(b, i) == n % 0x1_0000_0000
  {
    var m := n / 0x1_0000;
    assert n / 256 / 256 == m;
    assert Le32(n) == [n % 256] + ([n / 256 % 256] + LeBytes(n / 256 / 256, 2));
    assert Le16(n) == [n % 256] + ([n / 256 % 256] + LeBytes(n / 256 / 256, 0));
    assert b[i..i + 2] == Le32(n)[..2] == Le16(n);
    assert b[i + 2..i + 4] == Le32(n)[2..] == Le16(m);
    U16Le16(n, b, i);
    U16Le16(m, b, i + 2);
    TwoWords(n);
  }

  lemma TwoWords(n: nat)
    ensures n % 0x1_0000_0000 == n % 0x1_0000 + 0x1_0000 * (n / 0x1_0000 % 0x1_0000)
  {
  }

  // ---- the format ----

  datatype Chunk = Chunk(id: bytes, body: bytes)

  /** A chunk whose size field can be right. */
  predicate Fits(c: Chunk) {
    |c.id| == 4 && |c.body| < 0x1_0000_0000
  }

  function Pad(c: Chunk, padded: bool): bytes {
    if |c.body| % 2 == 1 && padded then [0] else []
  }

  function EncodeChunk(c: Chunk, padded: bool): bytes {
    c.id + Le32(|c.body|) + c.body + Pad(c, padded)
  }

  /** Chunks in file order; the pad byte after an odd last chunk may be missing. */
  function EncodeChunks(cs: seq<Chunk>, lastPadded: bool): bytes {
    if cs == [] then []
    else EncodeChunk(cs[0], lastPadded || |cs| > 1) + EncodeChunks(cs[1..], lastPadded)
  }

  function RiffFile(riffSize: nat, content: bytes): bytes {
    RIFF + Le32(riffSize) + WAVE + content
  }

  function FmtBody(format: nat, channels: nat, rate: nat, bits: nat): bytes {
    Le16(format) + Le16(channels) + Le32(rate) + Le32(rate * channels * bits / 8) + Le16(channels * bits / 8) + Le16(bits)
  }

  /** The file both writers mean: PCM, mono, 8 kHz, 16 bits, and no pad byte. */
  function TelephonyFile(pcm: bytes): bytes {
    RiffFile(36 + |pcm|, EncodeChunks([Chunk(FMT, FmtBody(1, CHANNELS, SAMPLE_RATE, BITS)), Chunk(DATA, pcm)], false))
  }

  // ---- the reader ----

  datatype ReadResult =
    | Payload(data: bytes)
    | NotWave
    | FmtTooSmall(size: nat)
    | NotPcm(format: nat)
    | NoFmt
    | NoData
    | NotTelephony(channels: nat, rate: nat, bits: nat)
    | OutOfBounds  // a size field points past the end of the file, which the code does not check

  /** What the walk has seen so far. */
  datatype Seen = Seen(haveFmt: bool, channels: nat, rate: nat, bits: nat, data: Option<bytes>)

  const NOTHING := Seen(false, 0, 0, 0, None)

  datatype Visit = Keep(seen: Seen) | Stop(why: ReadResult)

  function VisitChunk(seen: Seen, c: Chunk): Visit {
    if c.id == FMT then
      if |c.body| < 16 then Stop(FmtTooSmall(|c.body|))
      else if U16(c.body, 0) != 1 then Stop(NotPcm(U16(c.body, 0)))
      else Keep(Seen(true, U16(c.body, 2), U32(c.body, 4), U16(c.body, 14), seen.data))
    else if c.id == DATA then Keep(seen.(data := Some(c.body)))
    else Keep(seen)
  }

  function Verdict(seen: Seen): ReadResult {
    if !seen.haveFmt then NoFmt
    else if seen.data.None? then NoData
    else if seen.channels != 1 || seen.rate != 8000 || seen.bits != 16 then NotTelephony(seen.channels, seen.rate, seen.bits)
    else Payload(seen.data.value)
  }

  /** Reference: what a list of chunks means to the reader. */
  function ReadChunks(seen: Seen, cs: seq<Chunk>): ReadResult
    decreases cs
  {
    if cs == [] then Verdict(seen)
    else match VisitChunk(seen, cs[0])
      case Stop(why) => why
      case Keep(seen') => ReadChunks(seen', cs[1..])
  }

  /** The walk over the chunks from offset i on. */
  function Walk(seen: Seen, blob: bytes, i: nat): ReadResult
    decreases |blob| + 8 - i, 0
  {
    if i + 8 > |blob| then Verdict(seen)
    else
      var size := U32(blob, i + 4);
      if i + 8 + size > |blob| then OutOfBounds
      else Resume(VisitChunk(seen, Chunk(blob[i..i + 4], blob[i + 8..i + 8 + size])), blob, i + 8 + size + size % 2)
  }

  function Resume(v: Visit, blob: bytes, i: nat): ReadResult
    decreases |blob| + 8 - i, 1
  {
    if v.Stop? then v.why else Walk(v.seen, blob, i)
  }

  function Read(blob: bytes): ReadResult {
    if |blob| < 44 || blob[..4] != RIFF || blob[8..12] != WAVE then NotWave
    else Walk(NOTHING, blob, 12)
  }

  method ReadTelephonyWAV(blob: bytes) returns (r: ReadResult)
    ensures r == Read(blob)
  {
    if |blob| < 44 || blob[0..4] != RIFF || blob[8..12] != WAVE {
      return NotWave;
    }
    var haveFmt, numChannels, sampleRate, bitsPer := false, 0, 0, 0;
    var data: Option<bytes> := None;
    var i := 12;
    while i + 8 <= |blob|
      invariant 12 <= i
      invariant Walk(Seen(haveFmt, numChannels, sampleRate, bitsPer, data), blob, i) == Read(blob)
    {
      var id := blob[i..i + 4];
      var size := U32(blob, i + 4);
      if i + 8 + size > |blob| {
        return OutOfBounds;
      }
      var body := blob[i + 8..i + 8 + size];
      if id == FMT {
        if size < 16 {
          return FmtTooSmall(size);
        }
        var format := U16(body, 0);
        if format != 1 {
          return NotPcm(format);
        }
        numChannels := U16(body, 2);
        sampleRate := U32(body, 4);
        bitsPer := U16(body, 14);
        haveFmt := true;
      } else if id == DATA {
        data := Some(body);
      }
      i := i + 8 + size;
      if size % 2 == 1 {
        i := i + 1;
      }
    }
    if !haveFmt {
      return NoFmt;
    }
    if data.None? {
      return NoData;
    }
    if numChannels != 1 || sampleRate != 8000 || bitsPer != 16 {
      return NotTelephony(numChannels, sampleRate, bitsPer);
    }
    return Payload(data.value);
  }

  // ---- the reader undoes the format ----

  /** Chunk c lies at offset i. */
  predicate ChunkAt(blob: bytes, i: nat, c: Chunk) {
    && i + 8 + |c.body| <= |blob|
    && U32(blob, i + 4) == |c.body|
    && blob[i..i + 4] == c.id
    && blob[i + 8..i + 8 + |c.body|] == c.body
  }

  function NextOffset(i: nat, c: Chunk): nat {
    i + 8 + |c.body| + |c.body| % 2
  }

  lemma WalkStep(seen: Seen, blob: bytes, i: nat, c: Chunk)
    requires ChunkAt(blob, i, c)
    ensures Walk(seen, blob, i) == Resume(VisitChunk(seen, c), blob, NextOffset(i, c))
  {
  }

  lemma EncodedAt(blob: bytes, i: nat, c: Chunk, padded: bool, more: bytes)
    requires Fits(c) && (padded || more == [])
    requires From(blob, i) == EncodeChunk(c, padded) + more
    ensures ChunkAt(blob, i, c) && From(blob, NextOffset(i, c)) == more
  {
    EncodedParts(blob, i, c.id, Le32(|c.body|), c.body, Pad(c, padded), more);
    SizeRead(blob, i + 4, |c.body|);
  }

  lemma SizeRead(blob: bytes, i: nat, n: nat)
    requires n < 0x1_0000_0000 && i + 4 <= |blob| && blob[i..i + 4] == Le32(n)
    ensures U32(blob, i) == n
  {
    U32Le32(n, blob, i);
  }

  lemma EncodedParts(blob: bytes, i: nat, id: bytes, size: bytes, body: bytes, pad: bytes, more: bytes)
    requires |id| == |size| == 4 && From(blob, i) == id + size + body + pad + more
    ensures i + 8 + |body| + |pad| + |more| == |blob|
    ensures blob[i..i + 4] == id && blob[i + 4..i + 8] == size && blob[i + 8..i + 8 + |body|] == body
    ensures blob[i + 8 + |body| + |pad|..] == more
  {
    var rest, n := blob[i..], |body|;
    assert rest[..4] == id && rest[4..8] == size;
    assert rest[8..8 + n] == body;
    assert rest[8 + n + |pad|..] == more;
    assert blob[i..i + 4] == rest[..4] && blob[i + 4..i + 8] == rest[4..8];
    assert blob[i + 8..i + 8 + n] == rest[8..8 + n];
    assert blob[i + 8 + n + |pad|..] == rest[8 + n + |pad|..];
  }

  /** The chunks cs lie at offset i and nothing that looks like another chunk follows. */
  predicate ChunksAt(blob: bytes, i: nat, cs: seq<Chunk>)
    decreases cs
  {
    if cs == [] then i + 8 > |blob|
    else ChunkAt(blob, i, cs[0]) && ChunksAt(blob, NextOffset(i, cs[0]), cs[1..])
  }

  lemma {:induction false} EncodedChunksAt(blob: bytes, i: nat, cs: seq<Chunk>, lastPadded: bool, tail: bytes)
    requires forall c :: c in cs ==> Fits(c)
    requires |tail| < 8 && (tail != [] ==> lastPadded)
    requires From(blob, i) == EncodeChunks(cs, lastPadded) + tail
    ensures ChunksAt(blob, i, cs)
    decreases cs
  {
    if cs != [] {
      var padded, more := lastPadded || |cs| > 1, EncodeChunks(cs[1..], lastPadded) + tail;
      assert From(blob, i) == EncodeChunk(cs[0], padded) + more;
      EncodedAt(blob, i, cs[0], padded, more);
      EncodedChunksAt(blob, NextOffset(i, cs[0]), cs[1..], lastPadded, tail);
    }
  }

  /** Walking the bytes of some chunks is reading the chunks. */
  lemma {:induction false} WalkChunks(seen: Seen, blob: bytes, i: nat, cs: seq<Chunk>)
    requires ChunksAt(blob, i, cs)
    ensures Walk(seen, blob, i) == ReadChunks(seen, cs)
    decreases cs
  {
    if cs != [] {
      WalkStep(seen, blob, i, cs[0]);
      var v := VisitChunk(seen, cs[0]);
      if v.Keep? {
        WalkChunks(v.seen, blob, NextOffset(i, cs[0]), cs[1..]);
      }
    }
  }

  lemma ReadRiff(riffSize: nat, content: bytes)
    ensures var blob := RiffFile(riffSize, content);
            From(blob, 12) == content && Read(blob) == if |content| < 32 then NotWave else Walk(NOTHING, blob, 12)
  {
    var blob := RiffFile(riffSize, content);
    assert blob[..4] == RIFF && blob[8..12] == WAVE && blob[12..] == content;
  }

  ghost predicate GoodFmt(c: Chunk) {
    |c.body| >= 16 && U16(c.body, 0) == 1 && U16(c.body, 2) == 1 && U32(c.body, 4) == 8000 && U16(c.body, 14) == 16
  }

  ghost predicate HasFmt(cs: seq<Chunk>) {
    exists i: nat :: i < |cs| && cs[i].id == FMT
  }

  /** The index of the last data chunk, or none. */
  function LastData(cs: seq<Chunk>): (k: Option<nat>)
    ensures k.Some? ==> k.value < |cs| && cs[k.value].id == DATA && forall j :: k.value < j < |cs| ==> cs[j].id != DATA
    ensures k.None? ==> forall j :: 0 <= j < |cs| ==> cs[j].id != DATA
  {
    if cs == [] then None
    else if cs[|cs| - 1].id == DATA then Some(|cs| - 1)
    else LastData(cs[..|cs| - 1])
  }

  lemma {:induction false} ReadGoodChunks(seen: Seen, cs: seq<Chunk>)
    requires forall c :: c in cs && c.id == FMT ==> GoodFmt(c)
    requires seen.haveFmt ==> seen.channels == 1 && seen.rate == 8000 && seen.bits == 16
    requires seen.haveFmt || HasFmt(cs)
    requires seen.data.Some? || LastData(cs).Some?
    ensures ReadChunks(seen, cs) ==
            Payload(match LastData(cs) case Some(k) => cs[k].body case None => seen.data.value)
    decreases cs
  {
    if cs != [] {
      assert GoodFmt(cs[0]) || cs[0].id != FMT;
      var seen' := VisitChunk(seen, cs[0]).seen;
      LastDataTail(cs);
      LaterFmt(cs);
      ReadGoodChunks(seen', cs[1..]);
    }
  }

  lemma LaterFmt(cs: seq<Chunk>)
    requires cs != []
    ensures HasFmt(cs) <==> cs[0].id == FMT || HasFmt(cs[1..])
  {
    if i: nat :| i < |cs| && cs[i].id == FMT {
      assert i > 0 ==> cs[1..][i - 1] == cs[i];
    }
    if i: nat :| i < |cs[1..]| && cs[1..][i].id == FMT {
      assert cs[i + 1] == cs[1..][i];
    }
  }

  lemma {:induction false} LastDataTail(cs: seq<Chunk>)
    requires cs != []
    ensures LastData(cs) == match LastData(cs[1..])
                            case Some(k) => Some(k + 1)
                            case None => if cs[0].id == DATA then Some(0) else None
  {
    var m := LastData(cs[1..]);
    if m.Some? {
      assert cs[m.value + 1].id == DATA;
      assert forall j :: m.value + 1 < j < |cs| ==> cs[j] == cs[1..][j - 1];
    } else {
      assert forall j :: 1 <= j < |cs| ==> cs[j] == cs[1..][j - 1];
    }
  }

  /**
   On any well-formed file (chunks in any order among unknown ones, odd bodies padded except perhaps the
   last) whose fmt chunks all describe telephony PCM, the reader answers the body of the last data chunk.
   */
  lemma ReaderFindsLastData(riffSize: nat, cs: seq<Chunk>, lastPadded: bool, tail: bytes)
    requires forall c :: c in cs ==> Fits(c)
    requires |tail| < 8 && (tail != [] ==> lastPadded)
    requires forall c :: c in cs && c.id == FMT ==> GoodFmt(c)
    requires HasFmt(cs) && LastData(cs).Some?
    ensures Read(RiffFile(riffSize, EncodeChunks(cs, lastPadded) + tail)) == Payload(cs[LastData(cs).value].body)
  {
    var content := EncodeChunks(cs, lastPadded) + tail;
    ReadRiff(riffSize, content);
    EncodedChunksAt(RiffFile(riffSize, content), 12, cs, lastPadded, tail);
    WalkChunks(NOTHING, RiffFile(riffSize, content), 12, cs);
    ReadGoodChunks(NOTHING, cs);
    BigEnough(cs, lastPadded);
  }

  /** A fmt and a data chunk make more than the reader's minimal length. */
  lemma BigEnough(cs: seq<Chunk>, lastPadded: bool)
    requires forall c :: c in cs && c.id == FMT ==> GoodFmt(c)
    requires HasFmt(cs) && LastData(cs).Some?
    ensures |EncodeChunks(cs, lastPadded)| >= 32
  {
    var i: nat :| i < |cs| && cs[i].id == FMT;
    assert GoodFmt(cs[i]);
    EncodedSize(cs, lastPadded, i, LastData(cs).value);
  }

  lemma {:induction false} EncodedSize(cs: seq<Chunk>, lastPadded: bool, i: nat, j: nat)
    requires i < |cs| && j < |cs| && i != j && |cs[i].id| == |cs[j].id| == 4
    ensures |EncodeChunks(cs, lastPadded)| >= 16 + |cs[i].body| + |cs[j].body|
    decreases cs
  {
    if i > 0 && j > 0 {
      EncodedSize(cs[1..], lastPadded, i - 1, j - 1);
    } else {
      EncodedOne(cs[1..], lastPadded, if i > 0 then i - 1 else j - 1);
    }
  }

  lemma {:induction false} EncodedOne(cs: seq<Chunk>, lastPadded: bool, i: nat)
    requires i < |cs| && |cs[i].id| == 4
    ensures |EncodeChunks(cs, lastPadded)| >= 8 + |cs[i].body|
    decreases cs
  {
    if i > 0 {
      EncodedOne(cs[1..], lastPadded, i - 1);
    }
  }

  /** Whatever the file, the payload is no longer than a size field can say. */
  lemma {:induction false} PayloadFits(seen: Seen, blob: bytes, i: nat)
    requires seen.data.Some? ==> |seen.data.value| < 0x1_0000_0000
    ensures Walk(seen, blob, i).Payload? ==> |Walk(seen, blob, i).data| < 0x1_0000_0000
    decreases |blob| + 8 - i
  {
    if i + 8 <= |blob| {
      var size := U32(blob, i + 4);
      if i + 8 + size <= |blob| {
        var v := VisitChunk(seen, Chunk(blob[i..i + 4], blob[i + 8..i + 8 + size]));
        if v.Keep? {
          PayloadFits(v.seen, blob, i + 8 + size + size % 2);
        }
      }
    }
  }

  lemma SixFields(b: bytes, f0: bytes, f1: bytes, f2: bytes, f3: bytes, f4: bytes, f5: bytes)
    requires |f0| == |f1| == |f4| == |f5| == 2 && |f2| == |f3| == 4 && b == f0 + f1 + f2 + f3 + f4 + f5
    ensures |b| == 16 && b[0..2] == f0 && b[2..4] == f1 && b[4..8] == f2 && b[8..12] == f3 && b[12..14] == f4 && b[14..16] == f5
  {
  }

  lemma TelephonyFmtIsGood(format: nat, channels: nat, rate: nat, bits: nat)
    requires format == 1 && channels == CHANNELS && rate == SAMPLE_RATE && bits == BITS
    ensures GoodFmt(Chunk(FMT, FmtBody(format, channels, rate, bits))) && |FmtBody(format, channels, rate, bits)| == 16
  {
    FmtFields(FmtBody(format, channels, rate, bits), format, channels, rate,
              Le32(rate * channels * bits / 8), Le16(channels * bits / 8), bits);
  }

  /** The fields of a fmt body, as they are read. */
  lemma FmtFields(b: bytes, format: nat, channels: nat, rate: nat, byteRate: bytes, blockAlign: bytes, bits: nat)
    requires |byteRate| == 4 && |blockAlign| == 2
    requires b == Le16(format) + Le16(channels) + Le32(rate) + byteRate + blockAlign + Le16(bits)
    ensures |b| == 16
    ensures U16(b, 0) == format % 0x1_0000 && U16(b, 2) == channels % 0x1_0000
    ensures U32(b, 4) == rate % 0x1_0000_0000 && U16(b, 14) == bits % 0x1_0000
  {
    SixFields(b, Le16(format), Le16(channels), Le32(rate), byteRate, blockAlign, Le16(bits));
    U16Le16(format, b, 0);
    U16Le16(channels, b, 2);
    U32Le32(rate, b, 4);
    U16Le16(bits, b, 14);
  }

  /** The reader undoes the writers exactly when the byte count of the audio fits in 32 bits, odd and empty audio included. */
  lemma RoundTripIff(pcm: bytes)
    ensures Read(TelephonyFile(pcm)) == Payload(pcm) <==> |pcm| < 0x1_0000_0000
  {
    var cs := [Chunk(FMT, FmtBody(1, CHANNELS, SAMPLE_RATE, BITS)), Chunk(DATA, pcm)];
    var content := EncodeChunks(cs, false);
    TelephonyFmtIsGood(1, CHANNELS, SAMPLE_RATE, BITS);
    if |pcm| < 0x1_0000_0000 {
      assert cs[0].id == FMT && content + [] == content;
      ReaderFindsLastData(36 + |pcm|, cs, false, []);
    } else {
      PayloadFits(NOTHING, TelephonyFile(pcm), 12);
      ReadRiff(36 + |pcm|, content);
    }
  }

  // ---- the writers ----

  /** Concatenating the fields one by one gives the chunks of the format. */
  lemma FieldsAreChunks(head: bytes, id: bytes, size: bytes, f0: bytes, f1: bytes, f2: bytes, f3: bytes, f4: bytes, f5: bytes, rest: bytes)
    ensures head + id + size + f0 + f1 + f2 + f3 + f4 + f5 + rest == head + (id + size + (f0 + f1 + f2 + f3 + f4 + f5) + rest)
  {
  }

  lemma TelephonyChunks(pcm: bytes)
    ensures TelephonyFile(pcm) ==
            RIFF + Le32(36 + |pcm|) + WAVE
            + (FMT + Le32(16) + FmtBody(1, CHANNELS, SAMPLE_RATE, BITS) + (DATA + Le32(|pcm|) + pcm))
  {
    var f, d := Chunk(FMT, FmtBody(1, CHANNELS, SAMPLE_RATE, BITS)), Chunk(DATA, pcm);
    assert [f, d][1..] == [d] && [d][1..] == [];
    assert EncodeChunks([d], false) == EncodeChunk(d, false) == DATA + Le32(|pcm|) + pcm;
    assert |f.body| == 16;
    assert EncodeChunk(f, true) == FMT + Le32(16) + f.body;
    assert EncodeChunks([f, d], false) == EncodeChunk(f, true) + EncodeChunks([d], false);
  }

  /** Both writers put out the same fields in the same order. */
  method WrapWAV(pcm: bytes) returns (buf: bytes)
    ensures buf == TelephonyFile(pcm)
  {
    var byteRate := SAMPLE_RATE * CHANNELS * BITS / 8;
    var blockAlign := CHANNELS * BITS / 8;
    buf := RIFF;
    buf := buf + Le32(36 + |pcm|);
    buf := buf + WAVE;
    ghost var head := buf;
    buf := buf + FMT;
    buf := buf + Le32(16);
    buf := buf + Le16(1);
    buf := buf + Le16(CHANNELS);
    buf := buf + Le32(SAMPLE_RATE);
    buf := buf + Le32(byteRate);
    buf := buf + Le16(blockAlign);
    buf := buf + Le16(BITS);
    ghost var fields := buf;
    buf := buf + DATA;
    buf := buf + Le32(|pcm|);
    buf := buf + pcm;
    assert buf == fields + (DATA + Le32(|pcm|) + pcm);
    FieldsAreChunks(head, FMT, Le32(16), Le16(1), Le16(CHANNELS), Le32(SAMPLE_RATE), Le32(byteRate), Le16(blockAlign), Le16(BITS),
                    DATA + Le32(|pcm|) + pcm);
    TelephonyChunks(pcm);
  }

  /** Whatever goes in, the file of WrapWAV reads back as what went in, and nothing else does. */
  method WriteThenRead(pcm: bytes) returns (r: ReadResult)
    ensures r == Payload(pcm) <==> |pcm| < 0x1_0000_0000
  {
    var file := WrapWAV(pcm);
    r := ReadTelephonyWAV(file);
    RoundTripIff(pcm);
  }
}
