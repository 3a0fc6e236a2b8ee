/** RIFF/WAVE bytes: the joiner that prints them and the two readers that walk their
    chunks (one for speech synthesis, one for speech recognition). */
module Wav {
  import opened Lists

  type byte = x: int | 0 <= x < 256

  const U16_MAX := 0x1_0000
  const U32_MAX := 0x1_0000_0000

  // ── little-endian integers ────────────────────────────────────────────

  function U16(b: seq<byte>, at: nat): (v: nat)
    requires at + 2 <= |b|
    ensures v < U16_MAX
  {
    var low, high: int := b[at], b[at + 1];
    low + 0x100 * high
  }

  function U32(b: seq<byte>, at: nat): (v: nat)
    requires at + 4 <= |b|
    ensures v < U32_MAX
  {
    U16(b, at) + 0x1_0000 * U16(b, at + 2)
  }

  function Bytes16(v: nat): (b: seq<byte>)
    requires v < U16_MAX
    ensures |b| == 2 && U16(b, 0) == v
  {
    [v % 0x100, v / 0x100]
  }

  function Bytes32(v: nat): (b: seq<byte>)
    requires v < U32_MAX
    ensures |b| == 4 && U32(b, 0) == v
  {
    Bytes16(v % 0x1_0000) + Bytes16(v / 0x1_0000)
  }

  // ── reading ───────────────────────────────────────────────────────────

  const FMT: seq<byte> := [0x66, 0x6d, 0x74, 0x20]
  const DATA: seq<byte> := [0x64, 0x61, 0x74, 0x61]
  const RIFF: seq<byte> := [0x52, 0x49, 0x46, 0x46]
  const WAVE: seq<byte> := [0x57, 0x41, 0x56, 0x45]

  function Seven(b: byte): byte {
    b % 128
  }

  /** The chunk id at an offset; decoding as ASCII drops the top bit of every byte. */
  function Tag(wav: seq<byte>, at: nat): seq<byte>
    requires at + 4 <= |wav|
  {
    [Seven(wav[at]), Seven(wav[at + 1]), Seven(wav[at + 2]), Seven(wav[at + 3])]
  }

  function Clip(wav: seq<byte>, from: nat, size: nat): seq<byte>
    requires from <= |wav|
  {
    if from + size > |wav| then wav[from..] else wav[from..from + size]
  }

  datatype Format = Format(sampleRate: nat, channels: nat, bits: nat)

  const DEFAULT_FORMAT := Format(24000, 1, 16)

  /** `BadFormat`: a `fmt ` chunk that the file cuts short, an out-of-range read. */
  datatype Audio = Pcm(format: Format, pcm: seq<byte>) | NoData | BadFormat

  function ReadFrom(wav: seq<byte>, at: nat, format: Format): Audio
    decreases |wav| - at
  {
    if at + 8 > |wav| then NoData
    else
      var size := U32(wav, at + 4);
      var next := at + 8 + size + size % 2;
      if Tag(wav, at) == FMT then
        if at + 24 > |wav| then BadFormat
        else ReadFrom(wav, next, Format(U32(wav, at + 12), U16(wav, at + 10), U16(wav, at + 22)))
      else if Tag(wav, at) == DATA then Pcm(format, Clip(wav, at + 8, size))
      else ReadFrom(wav, next, format)
  }

  function Read(wav: seq<byte>): Audio {
    ReadFrom(wav, 12, DEFAULT_FORMAT)
  }

  method ReadWav(wav: seq<byte>) returns (audio: Audio)
    ensures audio == Read(wav)
  {
    var offset, format := 12, DEFAULT_FORMAT;
    while offset + 8 <= |wav|
      invariant ReadFrom(wav, offset, format) == Read(wav)
      decreases |wav| - offset
    {
      var id, size := Tag(wav, offset), U32(wav, offset + 4);
      if id == FMT {
        if offset + 24 > |wav| {
          return BadFormat;
        }
        format := Format(U32(wav, offset + 12), U16(wav, offset + 10), U16(wav, offset + 22));
      } else if id == DATA {
        return Pcm(format, Clip(wav, offset + 8, size));
      }
      offset := offset + 8 + size + size % 2;
    }
    audio := NoData;
  }

  datatype Chunk = Chunk(offset: nat, length: nat)

  /** The walk of the second reader, which does not skip the pad byte of an odd chunk. */
  function FindFrom(wav: seq<byte>, at: nat): (r: Option<Chunk>)
    ensures r.Some? ==> r.value.offset + r.value.length <= |wav|
    decreases |wav| - at
  {
    if at + 8 > |wav| then None
    else
      var size := U32(wav, at + 4);
      if Tag(wav, at) == DATA then Some(Chunk(at + 8, if size > |wav| - at - 8 then |wav| - at - 8 else size))
      else FindFrom(wav, at + 8 + size)
  }

  function Find(wav: seq<byte>): Option<Chunk> {
    FindFrom(wav, 12)
  }

  method FindWavDataChunk(wav: seq<byte>) returns (chunk: Option<Chunk>)
    ensures chunk == Find(wav)
  {
    var offset := 12;
    while offset + 8 <= |wav|
      invariant FindFrom(wav, offset) == Find(wav)
      decreases |wav| - offset
    {
      var id, size := Tag(wav, offset), U32(wav, offset + 4);
      if id == DATA {
        var left := |wav| - offset - 8;
        return Some(Chunk(offset + 8, if size > left then left else size));
      }
      offset := offset + 8 + size;
    }
    chunk := None;
  }

  // ── the two readers agree ─────────────────────────────────────────────

  /** Every chunk from `at` up to the first `data` chunk has even size. */
  predicate EvenBeforeData(wav: seq<byte>, at: nat)
    decreases |wav| - at
  {
    at + 8 > |wav| || Tag(wav, at) == DATA
    || (U32(wav, at + 4) % 2 == 0 && EvenBeforeData(wav, at + 8 + U32(wav, at + 4)))
  }

  predicate SameBytes(wav: seq<byte>, audio: Audio, chunk: Option<Chunk>)
    requires chunk.Some? ==> chunk.value.offset + chunk.value.length <= |wav|
  {
    match audio
    case Pcm(_, pcm) => chunk.Some? && pcm == wav[chunk.value.offset..chunk.value.offset + chunk.value.length]
    case NoData => chunk.None?
    case BadFormat => true
  }

  lemma {:induction false} ReadersAgreeFrom(wav: seq<byte>, at: nat, format: Format)
    requires EvenBeforeData(wav, at)
    ensures SameBytes(wav, ReadFrom(wav, at, format), FindFrom(wav, at))
    decreases |wav| - at
  {
    if at + 8 <= |wav| && Tag(wav, at) != DATA {
      var next := at + 8 + U32(wav, at + 4);
      if Tag(wav, at) == FMT {
        if at + 24 <= |wav| {
          ReadersAgreeFrom(wav, next, Format(U32(wav, at + 12), U16(wav, at + 10), U16(wav, at + 22)));
        }
      } else {
        ReadersAgreeFrom(wav, next, format);
      }
    }
  }

  /** With only even chunks before `data`, both readers select the same bytes, or both find
      none (unless the first one stops at a truncated format chunk). */
  lemma ReadersAgree(wav: seq<byte>)
    requires EvenBeforeData(wav, 12)
    ensures SameBytes(wav, Read(wav), Find(wav))
  {
    ReadersAgreeFrom(wav, 12, DEFAULT_FORMAT);
  }

  /** From `at`, chunks of even size that are not `data` lead to `to`. */
  predicate EvenUpTo(wav: seq<byte>, at: nat, to: nat)
    decreases |wav| - at
  {
    at == to
    || (at + 8 <= |wav| && Tag(wav, at) != DATA && U32(wav, at + 4) % 2 == 0
        && EvenUpTo(wav, at + 8 + U32(wav, at + 4), to))
  }

  lemma {:induction false} BothReach(wav: seq<byte>, at: nat, to: nat, format: Format)
    requires EvenUpTo(wav, at, to)
    ensures FindFrom(wav, at) == FindFrom(wav, to)
    ensures ReadFrom(wav, at, format) == BadFormat || exists f :: ReadFrom(wav, at, format) == ReadFrom(wav, to, f)
    decreases |wav| - at
  {
    if at != to {
      var next := at + 8 + U32(wav, at + 4);
      if Tag(wav, at) == FMT {
        if at + 24 <= |wav| {
          BothReach(wav, next, to, Format(U32(wav, at + 12), U16(wav, at + 10), U16(wav, at + 22)));
        } else {
          BothReach(wav, next, to, format);
        }
      } else {
        BothReach(wav, next, to, format);
      }
    }
  }

  lemma {:induction false} FindLooksAhead(wav: seq<byte>, at: nat)
    ensures FindFrom(wav, at).Some? ==> FindFrom(wav, at).value.offset >= at + 8
    decreases |wav| - at
  {
    if at + 8 <= |wav| && Tag(wav, at) != DATA {
      FindLooksAhead(wav, at + 8 + U32(wav, at + 4));
    }
  }

  lemma FindMisses(wav: seq<byte>, data: nat)
    requires 0 < data && data + 8 <= |wav| && Tag(wav, data) == DATA
    ensures FindFrom(wav, data - 1).Some? ==> FindFrom(wav, data - 1).value.offset != data + 8
  {
    FindLooksAhead(wav, data - 1 + 8 + U32(wav, data + 3));
  }

  lemma SkipsOdd(wav: seq<byte>, odd: nat, size: nat, format: Format)
    requires odd + 8 <= |wav| && size == U32(wav, odd + 4) && size % 2 == 1
    requires Tag(wav, odd) != DATA && Tag(wav, odd) != FMT
    ensures ReadFrom(wav, odd, format) == ReadFrom(wav, odd + 8 + size + 1, format)
    ensures FindFrom(wav, odd) == FindFrom(wav, odd + 8 + size)
  {
    hide U32, Tag;
  }

  lemma TakesData(wav: seq<byte>, data: nat, format: Format)
    requires data + 8 <= |wav| && Tag(wav, data) == DATA
    ensures ReadFrom(wav, data, format) == Pcm(format, Clip(wav, data + 8, U32(wav, data + 4)))
  {
    hide U32, Clip;
    assert DATA != FMT;
  }

  predicate StandsAt(wav: seq<byte>, part: seq<byte>, at: nat) {
    at + |part| <= |wav| && wav[at..at + |part|] == part
  }

  /** An odd chunk directly before `data`, behind even ones and with its pad byte: the first reader
      takes the payload of that `data` chunk (unless it stops at a truncated format chunk), and the
      second one never takes that chunk. So they select the same bytes only when the same payload
      stands elsewhere in the file as well. */
  lemma OddChunkBeforeData(wav: seq<byte>, odd: nat)
    requires EvenUpTo(wav, 12, odd) && odd + 8 <= |wav|
    requires Tag(wav, odd) != DATA && Tag(wav, odd) != FMT && U32(wav, odd + 4) % 2 == 1
    requires var data := odd + 9 + U32(wav, odd + 4); data + 8 <= |wav| && Tag(wav, data) == DATA
    ensures var data := odd + 9 + U32(wav, odd + 4);
      && (Read(wav) == BadFormat || (Read(wav).Pcm? && Read(wav).pcm == Clip(wav, data + 8, U32(wav, data + 4))))
      && (Find(wav).Some? ==> Find(wav).value.offset != data + 8)
      && (Read(wav).Pcm? && SameBytes(wav, Read(wav), Find(wav)) ==>
            exists at :: at != data + 8 && StandsAt(wav, Read(wav).pcm, at))
  {
    hide U32, Tag, ReadFrom, FindFrom, EvenUpTo, Clip;
    var size := U32(wav, odd + 4);
    var data := odd + 9 + size;
    BothReach(wav, 12, odd, DEFAULT_FORMAT);
    SkipsOdd(wav, odd, size, DEFAULT_FORMAT);
    FindMisses(wav, data);
    if Read(wav) != BadFormat {
      var f :| Read(wav) == ReadFrom(wav, odd, f);
      SkipsOdd(wav, odd, size, f);
      TakesData(wav, data, f);
    }
    if Read(wav).Pcm? && SameBytes(wav, Read(wav), Find(wav)) {
      assert StandsAt(wav, Read(wav).pcm, Find(wav).value.offset);
    }
  }

  /** The smallest such file: a one-byte chunk, its pad byte, and
      then the audio, which the second reader looks for one byte too early. */
  function OddSample(): seq<byte> {
    RIFF + [0, 0, 0, 0] + WAVE
    + [0x6a, 0x75, 0x6e, 0x6b, 1, 0, 0, 0, 7, 0]
    + DATA + [2, 0, 0, 0, 5, 6]
  }

  lemma OddChunkSeparatesReaders()
    ensures Read(OddSample()) == Pcm(DEFAULT_FORMAT, [5, 6])
    ensures Find(OddSample()) == None
  {
    var w := OddSample();
    assert |w| == 32;
    assert w[12] == 0x6a && w[13] == 0x75 && w[14] == 0x6e && w[15] == 0x6b;
    assert w[16] == 1 && w[17] == 0 && w[18] == 0 && w[19] == 0 && w[20] == 7 && w[21] == 0;
    assert w[22] == 0x64 && w[23] == 0x61 && w[24] == 0x74 && w[25] == 0x61;
    assert w[26] == 2 && w[27] == 0 && w[28] == 0 && w[29] == 0;
    assert w[30..32] == [5, 6];
    assert U32(w, 16) == 1 && U32(w, 26) == 2 && U32(w, 25) == 0x261;
    assert ReadFrom(w, 22, DEFAULT_FORMAT) == Pcm(DEFAULT_FORMAT, [5, 6]);
    assert FindFrom(w, 21) == FindFrom(w, 21 + 8 + 0x261);
  }

  // ── joining ───────────────────────────────────────────────────────────

  datatype Joined = Ok(wav: seq<byte>) | NothingToJoin | Unreadable | Not16Bit | OutOfRange

  const HEADER := 44

  /** The header fields fit their widths; otherwise the writes raise a range error. */
  predicate InRange(format: Format, size: nat) {
    && 36 + size < U32_MAX
    && format.channels * 2 < U16_MAX && format.sampleRate < U32_MAX
    && Speed(format) < U32_MAX
  }

  function Speed(format: Format): nat {
    format.sampleRate * format.channels * 2
  }

  function FormatChunk(format: Format, speed: nat): (c: seq<byte>)
    requires format.channels * 2 < U16_MAX && format.sampleRate < U32_MAX && speed < U32_MAX
    ensures |c| == 24
  {
    FMT + Bytes32(16) + Bytes16(1) + Bytes16(format.channels) + Bytes32(format.sampleRate)
    + Bytes32(speed) + Bytes16(format.channels * 2) + Bytes16(16)
  }

  function Header(format: Format, size: nat): (h: seq<byte>)
    requires InRange(format, size)
    ensures |h| == HEADER
  {
    RIFF + Bytes32(36 + size) + WAVE + FormatChunk(format, Speed(format)) + DATA + Bytes32(size)
  }

  predicate AllReadable(parts: seq<seq<byte>>) {
    parts == [] || (AllReadable(parts[..|parts| - 1]) && Read(parts[|parts| - 1]).Pcm?)
  }

  /** All payloads in order. */
  function Payloads(parts: seq<seq<byte>>): seq<byte>
    requires AllReadable(parts)
  {
    if parts == [] then [] else Payloads(parts[..|parts| - 1]) + Read(parts[|parts| - 1]).pcm
  }

  function Join(parts: seq<seq<byte>>): Joined {
    if parts == [] then NothingToJoin
    else if |parts| == 1 then Ok(parts[0])
    else if !Read(parts[0]).Pcm? then Unreadable
    else if Read(parts[0]).format.bits != 16 then Not16Bit
    else if !AllReadable(parts) then Unreadable
    else if !InRange(Read(parts[0]).format, |Payloads(parts)|) then OutOfRange
    else Ok(Header(Read(parts[0]).format, |Payloads(parts)|) + Payloads(parts))
  }

  /** One field of the header; everything before it stays as it was. */
  method Write(header: array<byte>, bytes: seq<byte>, at: nat)
    requires at + |bytes| <= header.Length
    modifies header
    ensures header[..at + |bytes|] == old(header[..at]) + bytes
  {
    forall i | 0 <= i < |bytes| {
      header[at + i] := bytes[i];
    }
  }

  /** The format chunk of the header. */
  method WriteFormat(header: array<byte>, format: Format, speed: nat)
    requires header.Length == HEADER && format.channels * 2 < U16_MAX && format.sampleRate < U32_MAX && speed < U32_MAX
    modifies header
    ensures header[..36] == old(header[..12]) + FormatChunk(format, speed)
  {
    ghost var before := header[..12];
    Write(header, FMT, 12);
    Write(header, Bytes32(16), 16);
    Write(header, Bytes16(1), 20);
    Write(header, Bytes16(format.channels), 22);
    Write(header, Bytes32(format.sampleRate), 24);
    Write(header, Bytes32(speed), 28);
    Write(header, Bytes16(format.channels * 2), 32);
    Write(header, Bytes16(16), 34);
    assert header[..36][12..] == FormatChunk(format, speed);
  }

  /** The header, field by field into a zeroed buffer. */
  method WriteHeader(format: Format, size: nat) returns (h: seq<byte>)
    requires InRange(format, size)
    ensures h == Header(format, size)
  {
    var header := new byte[HEADER](_ => 0);
    Write(header, RIFF, 0);
    Write(header, Bytes32(36 + size), 4);
    Write(header, WAVE, 8);
    assert header[..12] == RIFF + Bytes32(36 + size) + WAVE;
    WriteFormat(header, format, Speed(format));
    Write(header, DATA, 36);
    Write(header, Bytes32(size), 40);
    h := header[..HEADER];
  }

  method JoinWavs(parts: seq<seq<byte>>) returns (joined: Joined)
    ensures joined == Join(parts)
  {
    if |parts| == 1 {
      return Ok(parts[0]);
    }
    if parts == [] {
      return NothingToJoin;
    }
    var first := ReadWav(parts[0]);
    if !first.Pcm? {
      return Unreadable;
    }
    if first.format.bits != 16 {
      return Not16Bit;
    }
    var pcm := [];
    for i := 0 to |parts|
      invariant AllReadable(parts[..i]) && pcm == Payloads(parts[..i])
    {
      assert parts[..i + 1][..i] == parts[..i];
      var part := ReadWav(parts[i]);
      if !part.Pcm? {
        UnreadablePart(parts, i);
        return Unreadable;
      }
      pcm := pcm + part.pcm;
    }
    assert parts[..|parts|] == parts;
    if !InRange(first.format, |pcm|) {
      return OutOfRange;
    }
    var header := WriteHeader(first.format, |pcm|);
    joined := Ok(header + pcm);
  }

  lemma {:induction false} UnreadablePart(parts: seq<seq<byte>>, i: nat)
    requires i < |parts| && !Read(parts[i]).Pcm?
    ensures !AllReadable(parts)
  {
    if i < |parts| - 1 {
      UnreadablePart(parts[..|parts| - 1], i);
    }
  }

  // ── joining and reading ───────────────────────────────────────────────

  lemma FormatFields(format: Format, speed: nat)
    requires format.channels * 2 < U16_MAX && format.sampleRate < U32_MAX && speed < U32_MAX
    ensures var c := FormatChunk(format, speed);
      && Tag(c, 0) == FMT && U32(c, 4) == 16
      && U16(c, 10) == format.channels && U32(c, 12) == format.sampleRate && U16(c, 22) == 16
  {
    var c := FormatChunk(format, speed);
    assert c[0..4] == FMT && c[4..8] == Bytes32(16) && c[12..16] == Bytes32(format.sampleRate);
    assert c[10..12] == Bytes16(format.channels) && c[22..24] == Bytes16(16);
    TagOf(c, 0, FMT);
    U32Of(c, 4);
    U32Of(c, 12);
  }

  /** Fields of a stretch of a file. */
  lemma InnerFields(h: seq<byte>, from: nat, c: seq<byte>, at: nat)
    requires from + |c| <= |h| && h[from..from + |c|] == c && at + 4 <= |c|
    ensures Tag(h, from + at) == Tag(c, at) && U32(h, from + at) == U32(c, at)
    ensures U16(h, from + at) == U16(c, at) && U16(h, from + at + 2) == U16(c, at + 2)
  {
    assert c[at] == h[from + at] && c[at + 1] == h[from + at + 1];
    assert c[at + 2] == h[from + at + 2] && c[at + 3] == h[from + at + 3];
  }

  lemma SplitHeader(a: seq<byte>, b: seq<byte>, c: seq<byte>, d: seq<byte>)
    requires |a| == 12 && |b| == 24 && |c| == 4 && |d| == 4
    ensures var h := a + b + c + d;
      h[12..36] == b && h[36..40] == c && h[40..44] == d
  {
  }

  lemma HeaderFields(format: Format, size: nat)
    requires InRange(format, size)
    ensures var h := Header(format, size);
      && Tag(h, 12) == FMT && U32(h, 16) == 16
      && U16(h, 22) == format.channels && U32(h, 24) == format.sampleRate && U16(h, 34) == 16
      && Tag(h, 36) == DATA && U32(h, 40) == size
  {
    var h, c := Header(format, size), FormatChunk(format, Speed(format));
    FormatFields(format, Speed(format));
    var start := RIFF + Bytes32(36 + size) + WAVE;
    SplitHeader(start, c, DATA, Bytes32(size));
    InnerFields(h, 12, c, 0);
    InnerFields(h, 12, c, 4);
    InnerFields(h, 12, c, 10);
    InnerFields(h, 12, c, 12);
    InnerFields(h, 12, c, 20);
    TagOf(h, 36, DATA);
    U32Of(h, 40);
  }

  lemma TagOf(h: seq<byte>, at: nat, tag: seq<byte>)
    requires at + 4 <= |h| && h[at..at + 4] == tag && |tag| == 4
    requires forall i :: 0 <= i < 4 ==> tag[i] < 128
    ensures Tag(h, at) == tag
  {
    var part := h[at..at + 4];
    assert part[0] == h[at] && part[1] == h[at + 1] && part[2] == h[at + 2] && part[3] == h[at + 3];
  }

  lemma U32Of(h: seq<byte>, at: nat)
    requires at + 4 <= |h|
    ensures U32(h, at) == U32(h[at..at + 4], 0)
  {
  }

  lemma PrintedFields(format: Format, pcm: seq<byte>)
    requires InRange(format, |pcm|)
    ensures var w := Header(format, |pcm|) + pcm;
      && Tag(w, 12) == FMT && U32(w, 16) == 16
      && U16(w, 22) == format.channels && U32(w, 24) == format.sampleRate && U16(w, 34) == 16
      && Tag(w, 36) == DATA && U32(w, 40) == |pcm| && Clip(w, 44, |pcm|) == pcm
  {
    var h := Header(format, |pcm|);
    var w := h + pcm;
    HeaderFields(format, |pcm|);
    assert w[0..44] == h;
    InnerFields(w, 0, h, 12);
    InnerFields(w, 0, h, 16);
    InnerFields(w, 0, h, 22);
    InnerFields(w, 0, h, 24);
    InnerFields(w, 0, h, 34);
    InnerFields(w, 0, h, 36);
    InnerFields(w, 0, h, 40);
    assert w[44..] == pcm;
  }

  lemma ReadsFields(w: seq<byte>, format: Format, pcm: seq<byte>)
    requires |w| == HEADER + |pcm|
    requires Tag(w, 12) == FMT && U32(w, 16) == 16
    requires U16(w, 22) == format.channels && U32(w, 24) == format.sampleRate && U16(w, 34) == 16
    requires Tag(w, 36) == DATA && U32(w, 40) == |pcm| && Clip(w, 44, |pcm|) == pcm
    ensures Read(w) == Pcm(format.(bits := 16), pcm)
  {
    assert FMT[0] != DATA[0];
    assert ReadFrom(w, 36, format.(bits := 16)) == Pcm(format.(bits := 16), pcm);
  }

  /** What is printed is read back: format and payload. */
  lemma ReadsWhatWasPrinted(format: Format, pcm: seq<byte>)
    requires InRange(format, |pcm|)
    ensures Read(Header(format, |pcm|) + pcm) == Pcm(format.(bits := 16), pcm)
  {
    PrintedFields(format, pcm);
    ReadsFields(Header(format, |pcm|) + pcm, format, pcm);
  }

  /** The whole header of a printed file, field by field, read from its offsets. */
  lemma HeaderIs(format: Format, pcm: seq<byte>)
    requires InRange(format, |pcm|)
    ensures var w := Header(format, |pcm|) + pcm;
      && |w| == 44 + |pcm| && w[44..] == pcm
      && Tag(w, 0) == RIFF && U32(w, 4) == |w| - 8 && Tag(w, 8) == WAVE
      && Tag(w, 12) == FMT && U32(w, 16) == 16 && U16(w, 20) == 1
      && U16(w, 22) == format.channels && U32(w, 24) == format.sampleRate
      && U32(w, 28) == format.sampleRate * format.channels * 2
      && U16(w, 32) == format.channels * 2 && U16(w, 34) == 16
      && Tag(w, 36) == DATA && U32(w, 40) == |pcm|
  {
    hide U32, U16, Tag, Clip;
    var h := Header(format, |pcm|);
    var w := h + pcm;
    PrintedFields(format, pcm);
    StartFields(format, |pcm|);
    RateFields(format, |pcm|);
    assert w[0..44] == h;
    InnerFields(w, 0, h, 0);
    InnerFields(w, 0, h, 4);
    InnerFields(w, 0, h, 8);
    InnerFields(w, 0, h, 20);
    InnerFields(w, 0, h, 28);
    InnerFields(w, 0, h, 32);
  }

  lemma StartFields(format: Format, size: nat)
    requires InRange(format, size)
    ensures var h := Header(format, size);
      Tag(h, 0) == RIFF && U32(h, 4) == 36 + size && Tag(h, 8) == WAVE
  {
    hide U32, U16, Tag, FormatChunk;
    var h := Header(format, size);
    var start := RIFF + Bytes32(36 + size) + WAVE;
    assert h[0..12] == start;
    assert start[0..4] == RIFF && start[4..8] == Bytes32(36 + size) && start[8..12] == WAVE;
    TagOf(start, 0, RIFF);
    TagOf(start, 8, WAVE);
    U32Of(start, 4);
    InnerFields(h, 0, start, 0);
    InnerFields(h, 0, start, 4);
    InnerFields(h, 0, start, 8);
  }

  lemma RateFields(format: Format, size: nat)
    requires InRange(format, size)
    ensures var h := Header(format, size);
      && U16(h, 20) == 1 && U32(h, 28) == Speed(format) && U16(h, 32) == format.channels * 2
  {
    hide U32, U16, Tag, FormatChunk;
    var h, c := Header(format, size), FormatChunk(format, Speed(format));
    RateFieldsOfChunk(format, Speed(format));
    SplitHeader(RIFF + Bytes32(36 + size) + WAVE, c, DATA, Bytes32(size));
    InnerFields(h, 12, c, 8);
    InnerFields(h, 12, c, 16);
    InnerFields(h, 12, c, 20);
  }

  lemma RateFieldsOfChunk(format: Format, speed: nat)
    requires format.channels * 2 < U16_MAX && format.sampleRate < U32_MAX && speed < U32_MAX
    ensures var c := FormatChunk(format, speed);
      && U16(c, 8) == 1 && U32(c, 16) == speed && U16(c, 20) == format.channels * 2
  {
    var c := FormatChunk(format, speed);
    assert c[8..10] == Bytes16(1) && c[16..20] == Bytes32(speed) && c[20..22] == Bytes16(format.channels * 2);
    U32Of(c, 16);
  }

  /** When joining more than one file succeeds, and what it prints then. */
  lemma JoinSucceedsIff(parts: seq<seq<byte>>)
    requires |parts| > 1
    ensures Join(parts).Ok? <==>
      && (forall i :: 0 <= i < |parts| ==> Read(parts[i]).Pcm?)
      && Read(parts[0]).format.bits == 16 && AllReadable(parts) && InRange(Read(parts[0]).format, |Payloads(parts)|)
    ensures Join(parts).Ok? ==> AllReadable(parts) && Read(Join(parts).wav) == Pcm(Read(parts[0]).format, Payloads(parts))
  {
    hide Header, ReadFrom, InRange;
    forall i | 0 <= i < |parts| && !Read(parts[i]).Pcm? ensures !AllReadable(parts) {
      UnreadablePart(parts, i);
    }
    if Join(parts).Ok? {
      ReadsWhatWasPrinted(Read(parts[0]).format, Payloads(parts));
    }
  }

  /** A tree of joins over recorded clips. */
  datatype Tree = Recorded(wav: seq<byte>) | Joining(parts: seq<Tree>)

  function Eval(t: Tree): Joined {
    match t
    case Recorded(wav) => Ok(wav)
    case Joining(parts) => if EvalAll(parts).Some? then Join(EvalAll(parts).value) else Unreadable
  }

  function EvalAll(parts: seq<Tree>): Option<seq<seq<byte>>> {
    if parts == [] then Some([])
    else
      var init, last := EvalAll(parts[..|parts| - 1]), Eval(parts[|parts| - 1]);
      if init.Some? && last.Ok? then Some(init.value + [last.wav]) else None
  }

  /** Every recorded clip is readable in the given format, and no join is empty. */
  predicate Uniform(t: Tree, format: Format) {
    match t
    case Recorded(wav) => Read(wav).Pcm? && Read(wav).format == format
    case Joining(parts) => parts != [] && UniformAll(parts, format)
  }

  predicate UniformAll(parts: seq<Tree>, format: Format) {
    parts == [] || (UniformAll(parts[..|parts| - 1], format) && Uniform(parts[|parts| - 1], format))
  }

  /** The payloads of the recorded clips, left to right, whatever the grouping. */
  function Payload(t: Tree): seq<byte> {
    match t
    case Recorded(wav) => if Read(wav).Pcm? then Read(wav).pcm else []
    case Joining(parts) => PayloadAll(parts)
  }

  function PayloadAll(parts: seq<Tree>): seq<byte> {
    if parts == [] then [] else PayloadAll(parts[..|parts| - 1]) + Payload(parts[|parts| - 1])
  }

  /** Reading any grouping of joins of same-format 16-bit clips gives back that format and
      all payloads in order, as long as the sizes fit the header's fields. */
  lemma {:induction false} JoinIsAHomomorphism(t: Tree, format: Format)
    requires Uniform(t, format) && format.bits == 16 && InRange(format, |Payload(t)|)
    ensures Eval(t).Ok? && Read(Eval(t).wav) == Pcm(format, Payload(t))
    decreases t, 0
  {
    if t.Joining? {
      var parts := t.parts;
      JoinsAll(parts, format);
      var wavs := EvalAll(parts).value;
      if |parts| == 1 {
        JoinOne(parts, format);
      } else {
        ReadsWhatWasPrinted(format, Payloads(wavs));
      }
    }
  }

  lemma {:induction false} JoinOne(parts: seq<Tree>, format: Format)
    requires |parts| == 1 && EvalAll(parts).Some? && |EvalAll(parts).value| == 1
    requires AllReadable(EvalAll(parts).value) && Payloads(EvalAll(parts).value) == PayloadAll(parts)
    requires Read(EvalAll(parts).value[0]).Pcm? && Read(EvalAll(parts).value[0]).format == format
    ensures Read(EvalAll(parts).value[0]) == Pcm(format, PayloadAll(parts))
  {
    var wavs := EvalAll(parts).value;
    assert wavs[..0] == [] && Payloads(wavs) == [] + Read(wavs[0]).pcm;
  }

  lemma {:induction false} JoinsAll(parts: seq<Tree>, format: Format)
    requires UniformAll(parts, format) && format.bits == 16 && InRange(format, |PayloadAll(parts)|)
    ensures EvalAll(parts).Some?
    ensures var wavs := EvalAll(parts).value;
      && |wavs| == |parts| && AllReadable(wavs) && Payloads(wavs) == PayloadAll(parts)
      && (parts != [] ==> Read(wavs[0]).Pcm? && Read(wavs[0]).format == format)
    decreases parts, 1
  {
    if parts != [] {
      var init, last := parts[..|parts| - 1], parts[|parts| - 1];
      JoinsAll(init, format);
      JoinIsAHomomorphism(last, format);
      var before := EvalAll(init).value;
      var wavs := EvalAll(parts).value;
      assert wavs[..|wavs| - 1] == before;
    }
  }
}
