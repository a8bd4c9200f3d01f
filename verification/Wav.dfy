/** The WAV files of file-mode clips: a header written with empty sizes, the converted audio, and the
    two size fields patched in afterwards. The layout is that of chapter 3, "Waveform Audio File Format
    (WAVE)", of the Multimedia Programming Interface and Data Specifications 1.0. */
module Wav {
  import opened AudioProperties
  import opened Striding
  import opened ConverterSpec
  import opened Converter

  // ----- little-endian fields -----

  function Byte(n: nat): byte { n % 256 }

  function Le16(n: nat): seq<byte> { [Byte(n), Byte(n / 0x100)] }

  function Le32(n: nat): seq<byte> { [Byte(n), Byte(n / 0x100), Byte(n / 0x1_0000), Byte(n / 0x100_0000)] }

  function ReadLe16(b: seq<byte>, at: nat): nat
    requires at + 2 <= |b|
  {
    b[at] as int + 0x100 * b[at+1] as int
  }

  function ReadLe32(b: seq<byte>, at: nat): nat
    requires at + 4 <= |b|
  {
    b[at] as int + 0x100 * b[at+1] as int + 0x1_0000 * b[at+2] as int + 0x100_0000 * b[at+3] as int
  }

  lemma Le16RoundTrip(n: nat, b: seq<byte>, at: nat)
    requires n < 0x1_0000 && at + 2 <= |b| && b[at..at+2] == Le16(n)
    ensures ReadLe16(b, at) == n
  {
    assert b[at] == b[at..at+2][0] && b[at+1] == b[at..at+2][1];
  }

  lemma Le32RoundTrip(n: nat, b: seq<byte>, at: nat)
    requires n < U32 && at + 4 <= |b| && b[at..at+4] == Le32(n)
    ensures ReadLe32(b, at) == n
  {
    var f := b[at..at+4];
    assert b[at] == f[0] && b[at+1] == f[1] && b[at+2] == f[2] && b[at+3] == f[3];
    var n1 := n / 0x100;
    var n2 := n1 / 0x100;
    var n3 := n2 / 0x100;
    assert n / 0x1_0000 == n2 && n / 0x100_0000 == n3;
    assert n == n % 0x100 + 0x100 * n1 && n1 == n1 % 0x100 + 0x100 * n2 && n2 == n2 % 0x100 + 0x100 * n3;
  }

  const RIFF: seq<byte> := [0x52, 0x49, 0x46, 0x46]
  const WAVE: seq<byte> := [0x57, 0x41, 0x56, 0x45]
  const FMT: seq<byte> := [0x66, 0x6D, 0x74, 0x20]
  const DATA: seq<byte> := [0x64, 0x61, 0x74, 0x61]

  // ----- what the writer leaves -----

  /** The RIFF chunk head, the contents of the format chunk and the data chunk head. */
  function RiffPart(riffSize: nat): seq<byte> { RIFF + Le32(riffSize) + WAVE }

  function FormatPart(p: Properties): seq<byte> {
    Le16(1) + Le16(Channels(p.format)) + Le32(SamplingRate(p.frequency)) + Le32(DataRate(p))
    + Le16(Channels(p.format) * BitsPerSample(p.format) / 8) + Le16(BitsPerSample(p.format))
  }

  function DataPart(dataSize: nat): seq<byte> { DATA + Le32(dataSize) }

  /** The 44 header bytes for audio with properties p, with the given values in the two size fields. */
  function Header(p: Properties, riffSize: nat, dataSize: nat): seq<byte> {
    RiffPart(riffSize) + (FMT + Le32(16)) + FormatPart(p) + DataPart(dataSize)
  }

  /** One more field at the end of what has been written since `before`. */
  method Put(file: OutFile, field: seq<byte>, ghost before: seq<byte>, ghost written: seq<byte>)
    requires file.position == |file.bytes| && file.bytes == before + written
    modifies file
    ensures file.position == |file.bytes| && file.bytes == before + (written + field)
  {
    file.Write(field);
  }

  method WriteFormatFields(file: OutFile, p: Properties)
    requires file.position == |file.bytes|
    modifies file
    ensures file.position == |file.bytes| && file.bytes == old(file.bytes) + FormatPart(p)
  {
    var channels, bits := Channels(p.format), BitsPerSample(p.format);
    assert channels % 0x1_0000 == channels && bits % 0x1_0000 == bits;
    assert channels * bits / 8 % 0x1_0000 == channels * bits / 8;
    hide Le16, Le32, DataRate;
    ghost var b, f := file.bytes, Le16(1);
    Put(file, Le16(1), b, []);
    assert [] + f == f;
    Put(file, Le16(channels % 0x1_0000), b, f);
    f := f + Le16(channels);
    Put(file, Le32(SamplingRate(p.frequency)), b, f);
    f := f + Le32(SamplingRate(p.frequency));
    Put(file, Le32(DataRate(p)), b, f);
    f := f + Le32(DataRate(p));
    Put(file, Le16(channels * bits / 8 % 0x1_0000), b, f);
    f := f + Le16(channels * bits / 8);
    Put(file, Le16(bits % 0x1_0000), b, f);
  }

  method WriteDefaultFileHeader(file: OutFile, p: Properties)
    requires file.position == |file.bytes|
    modifies file
    ensures file.position == |file.bytes| && file.bytes == old(file.bytes) + Header(p, 0, 0)
  {
    hide FormatPart;
    ghost var b, riff := file.bytes, RiffPart(0);
    Put(file, RIFF, b, []);
    Put(file, Le32(0), b, RIFF);
    Put(file, WAVE, b, RIFF + Le32(0));
    Put(file, FMT, b, riff);
    Put(file, Le32(16), b, riff + FMT);
    assert file.bytes == b + (riff + (FMT + Le32(16)));
    WriteFormatFields(file, p);
    ghost var upToData := riff + (FMT + Le32(16)) + FormatPart(p);
    assert file.bytes == b + upToData;
    Put(file, DATA, b, upToData);
    Put(file, Le32(0), b, upToData + DATA);
    assert upToData + DATA + Le32(0) == Header(p, 0, 0);
  }

  /** Overwrites the four bytes at `at`. */
  method PatchField(file: OutFile, at: nat, n: nat)
    requires at + 4 <= |file.bytes|
    modifies file
    ensures file.bytes == old(file.bytes)[..at] + Le32(n) + old(file.bytes)[at+4..]
  {
    file.SeekTo(at);
    file.Write(Le32(n));
    assert at + 4 == |old(file.bytes)| ==> old(file.bytes)[at+4..] == [];
  }

  function RiffSize(dataSize: nat): nat { (36 + dataSize) % U32 }

  /** The put position minus the header, in unsigned arithmetic. */
  function PayloadSize(position: nat): nat { (position % U32 + U32 - 44) % U32 }

  /** Overwrites the two size fields, nothing else, and returns the put position to where it was. */
  method UpdateFileHeaderSize(file: OutFile, dataSize: nat)
    requires 44 <= |file.bytes| && file.position <= |file.bytes|
    modifies file
    ensures file.position == old(file.position)
    ensures file.bytes == old(file.bytes)[..4] + Le32(RiffSize(dataSize)) + old(file.bytes)[8..40]
      + Le32(dataSize) + old(file.bytes)[44..]
  {
    var originalPosition := file.position;
    PatchField(file, 4, RiffSize(dataSize));
    PatchField(file, 40, dataSize);
    file.SeekTo(originalPosition);
  }

  // ----- a reader that knows only the format -----

  datatype Chunk = NoChunk | Found(start: nat, size: nat)

  /** Walks the chunk list from `at`: four bytes of name, four of size, contents padded to even. */
  function FindChunk(b: seq<byte>, at: nat, name: seq<byte>): (c: Chunk)
    ensures c.Found? ==> c.start <= |b|
    decreases |b| - at
  {
    if at + 8 > |b| then NoChunk
    else
      var size := ReadLe32(b, at + 4);
      if b[at..at+4] == name then Found(at + 8, size)
      else FindChunk(b, at + 8 + size + size % 2, name)
  }

  datatype WavFile =
    | Malformed
    | WavFile(riffSize: nat, pcm: bool, channels: nat, rate: nat, byteRate: nat, blockAlign: nat, bits: nat, audio: seq<byte>)

  function ParseWav(b: seq<byte>): WavFile {
    if |b| < 12 || b[0..4] != RIFF || b[8..12] != WAVE then Malformed
    else
      var fmt, data := FindChunk(b, 12, FMT), FindChunk(b, 12, DATA);
      if fmt.NoChunk? || data.NoChunk? || fmt.size < 16 || fmt.start + 16 > |b| || data.start + data.size > |b| then Malformed
      else
        var f := fmt.start;
        WavFile(ReadLe32(b, 4), ReadLe16(b, f) == 1, ReadLe16(b, f + 2), ReadLe32(b, f + 4), ReadLe32(b, f + 8),
                ReadLe16(b, f + 12), ReadLe16(b, f + 14), b[data.start..data.start+data.size])
  }

  lemma FormatFields(p: Properties)
    ensures var f := FormatPart(p);
      && |f| == 16 && f[0..2] == Le16(1) && f[2..4] == Le16(Channels(p.format))
      && f[4..8] == Le32(SamplingRate(p.frequency)) && f[8..12] == Le32(DataRate(p))
      && f[12..14] == Le16(Channels(p.format) * BitsPerSample(p.format) / 8)
      && f[14..16] == Le16(BitsPerSample(p.format))
  {}

  lemma HeaderParts(p: Properties, riffSize: nat, dataSize: nat, audio: seq<byte>)
    ensures var b := Header(p, riffSize, dataSize) + audio;
      && |FormatPart(p)| == 16 && |b| == 44 + |audio|
      && b[0..4] == RIFF && b[4..8] == Le32(riffSize) && b[8..12] == WAVE
      && b[12..16] == FMT && b[16..20] == Le32(16) && b[20..36] == FormatPart(p)
      && b[36..40] == DATA && b[40..44] == Le32(dataSize) && b[44..] == audio
  {
    FormatFields(p);
    hide FormatPart;
    var b := Header(p, riffSize, dataSize) + audio;
    assert b[0..12] == RiffPart(riffSize) && b[36..44] == DataPart(dataSize);
    Inner(b, RiffPart(riffSize), 0, 0, 4);
    Inner(b, RiffPart(riffSize), 0, 4, 8);
    Inner(b, RiffPart(riffSize), 0, 8, 12);
    Inner(b, DataPart(dataSize), 36, 0, 4);
    Inner(b, DataPart(dataSize), 36, 4, 8);
  }

  lemma Inner(b: seq<byte>, f: seq<byte>, at: nat, i: nat, j: nat)
    requires at + |f| <= |b| && b[at..at+|f|] == f && i <= j <= |f|
    ensures b[at+i..at+j] == f[i..j]
  {
    forall k | i <= k < j ensures b[at+k] == f[k] {
      assert b[at+k] == b[at..at+|f|][k];
    }
  }

  /** Reading back a file with this header gives exactly the properties and the audio written. */
  lemma ParseHeader(p: Properties, riffSize: nat, audio: seq<byte>)
    requires riffSize < U32 && |audio| < U32
    ensures ParseWav(Header(p, riffSize, |audio|) + audio)
      == WavFile(riffSize, true, Channels(p.format), SamplingRate(p.frequency), DataRate(p),
                 FrameSize(p.format), BitsPerSample(p.format), audio)
  {
    var b := Header(p, riffSize, |audio|) + audio;
    HeaderParts(p, riffSize, |audio|, audio);
    FormatFields(p);
    ParseFormat(p, b);
    hide Header, FormatPart, Le32, Le16, DataRate;
    Le32RoundTrip(riffSize, b, 4);
    Le32RoundTrip(16, b, 16);
    Le32RoundTrip(|audio|, b, 40);
    assert FMT != DATA;
    assert FindChunk(b, 12, FMT) == Found(20, 16);
    assert FindChunk(b, 12, DATA) == FindChunk(b, 36, DATA) == Found(44, |audio|);
    assert b[44..44+|audio|] == audio;
  }

  lemma ParseFormat(p: Properties, b: seq<byte>)
    requires |b| >= 36 && b[20..36] == FormatPart(p)
    ensures ReadLe16(b, 20) == 1 && ReadLe16(b, 22) == Channels(p.format)
    ensures ReadLe32(b, 24) == SamplingRate(p.frequency) && ReadLe32(b, 28) == DataRate(p)
    ensures ReadLe16(b, 32) == FrameSize(p.format) && ReadLe16(b, 34) == BitsPerSample(p.format)
  {
    var f := FormatPart(p);
    FormatFields(p);
    RateBound(p);
    hide FormatPart, DataRate;
    Inner(b, f, 20, 0, 2);
    Inner(b, f, 20, 2, 4);
    Inner(b, f, 20, 4, 8);
    Inner(b, f, 20, 8, 12);
    Inner(b, f, 20, 12, 14);
    Inner(b, f, 20, 14, 16);
    Le16RoundTrip(1, b, 20);
    Le16RoundTrip(Channels(p.format), b, 22);
    Le32RoundTrip(SamplingRate(p.frequency), b, 24);
    Le32RoundTrip(DataRate(p), b, 28);
    Le16RoundTrip(Channels(p.format) * BitsPerSample(p.format) / 8, b, 32);
    Le16RoundTrip(BitsPerSample(p.format), b, 34);
  }

  /** Filling in the sizes of a freshly written file yields the header with those sizes. */
  lemma PatchCompletes(p: Properties, audio: seq<byte>, riffSize: nat, dataSize: nat)
    ensures var b := Header(p, 0, 0) + audio;
      && |b| == 44 + |audio|
      && b[..4] + Le32(riffSize) + b[8..40] + Le32(dataSize) + b[44..] == Header(p, riffSize, dataSize) + audio
  {
    FormatFields(p);
    HeaderParts(p, 0, 0, audio);
    hide FormatPart;
    var b := Header(p, 0, 0) + audio;
    assert b[..4] == RIFF && b[8..40] == WAVE + (FMT + Le32(16)) + FormatPart(p) + DATA;
  }

  // ----- a clip written to a file -----

  /** What a finished clip file with a header holds. */
  function ClipFile(target: Properties, audio: seq<byte>): seq<byte> {
    Header(target, RiffSize(|audio|), |audio| % U32) + audio
  }

  method ConvertToFile(queue: seq<seq<byte>>, size: int, input: Properties, target: Properties, file: OutFile)
    requires file.position == |file.bytes| && Convertible(input, target, queue, size, false)
    modifies file
    ensures file.position == |file.bytes| && file.bytes == old(file.bytes) + Converted(input, target, queue, size, false)
  {
    var converter := new AudioConverter(input, target, ToFile(file));
    var _ := converter.Convert(queue, size);
  }

  method FinishHeader(file: OutFile, target: Properties, ghost audio: seq<byte>)
    requires file.bytes == Header(target, 0, 0) + audio && file.position == |file.bytes|
    modifies file
    ensures file.bytes == ClipFile(target, audio)
  {
    PatchCompletes(target, audio, RiffSize(|audio|), |audio| % U32);
    PayloadIsAudio(|audio|);
    hide Header, Le32, PayloadSize, RiffSize;
    UpdateFileHeaderSize(file, PayloadSize(file.position));
  }

  /** grab_last_n_seconds in file mode, on a freshly opened file; `target` is the output format if
      conversion is on and the capture format otherwise. */
  method GrabToFile(queue: seq<seq<byte>>, seconds: nat, input: Properties, target: Properties, wavHeader: bool,
                    file: OutFile)
    returns (ret: int)
    requires file.bytes == [] && file.position == 0
    requires queue != [] ==> Convertible(input, target, queue, seconds * DataRate(input), false)
    modifies file
    ensures ret == if queue == [] then -1 else 0
    ensures queue == [] ==> file.bytes == []
    ensures queue != [] ==>
      var audio := Converted(input, target, queue, seconds * DataRate(input), false);
      && file.bytes == (if wavHeader then ClipFile(target, audio) else audio)
      && IsConversion(input, target, queue, seconds * DataRate(input), false, Payload(file.bytes, wavHeader))
    ensures queue != [] && target == input ==>
      exists k: nat ::
        && IsCut(Sizes(queue), seconds * DataRate(input) + 1, k)
        && Payload(file.bytes, wavHeader) == Flatten(queue[..k])
    ensures queue != [] && input.format == Stereo16 && target.format == Mono16 && input.frequency == target.frequency ==>
      exists k: nat ::
        && IsCut(Sizes(queue), seconds * DataRate(input), k)
        && IsLeftHalf(Payload(file.bytes, wavHeader), Flatten(queue[..k]))
  {
    hide Converted, Convertible, Header, DataRate, ClipFile, IsConversion, IsCut, IsLeftHalf, Flatten, Sizes, Payload;
    if queue == [] {
      return -1;
    }
    var size := seconds * DataRate(input);
    ghost var audio := Converted(input, target, queue, size, false);
    if wavHeader {
      WriteDefaultFileHeader(file, target);
      ConvertToFile(queue, size, input, target, file);
      FinishHeader(file, target, audio);
    } else {
      ConvertToFile(queue, size, input, target, file);
    }
    PayloadOf(target, audio, file.bytes, wavHeader);
    FileClips(input, target, queue, size, audio);
    return 0;
  }

  /** What follows the 44 header bytes, or everything in a file without a header. */
  ghost function Payload(bytes: seq<byte>, wavHeader: bool): seq<byte> {
    if !wavHeader then bytes else if |bytes| < 44 then [] else bytes[44..]
  }

  lemma PayloadOf(target: Properties, audio: seq<byte>, bytes: seq<byte>, wavHeader: bool)
    requires bytes == if wavHeader then ClipFile(target, audio) else audio
    ensures Payload(bytes, wavHeader) == audio
  {
    hide Header, RiffSize;
    HeaderSize(target, RiffSize(|audio|), |audio| % U32);
  }

  lemma FileClips(input: Properties, target: Properties, queue: seq<seq<byte>>, size: int, audio: seq<byte>)
    requires Convertible(input, target, queue, size, false) && audio == Converted(input, target, queue, size, false)
    ensures IsConversion(input, target, queue, size, false, audio)
    ensures target == input ==> exists k: nat :: IsCut(Sizes(queue), size + 1, k) && audio == Flatten(queue[..k])
    ensures input.format == Stereo16 && target.format == Mono16 && input.frequency == target.frequency ==>
      exists k: nat :: IsCut(Sizes(queue), size, k) && IsLeftHalf(audio, Flatten(queue[..k]))
  {
    hide Converted, Convertible, IsCut, IsLeftHalf, Flatten, Sizes, IsPick, CodeOffsets, FrameSize;
    ConversionIs(input, target, queue, size, false, audio);
  }

  lemma PayloadIsAudio(n: nat)
    ensures PayloadSize(44 + n) == n % U32 && RiffSize(n % U32) == RiffSize(n)
  {}

  /** The round trip: reading a finished file back gives the channels, rate, byte rate, block align and
      sample width of its format and the very audio converted, provided that fits the 32-bit sizes. */
  lemma ClipFileRoundTrip(target: Properties, audio: seq<byte>)
    requires 36 + |audio| < U32
    ensures var b := ClipFile(target, audio);
      ParseWav(b) == WavFile(|b| - 8, true, Channels(target.format), SamplingRate(target.frequency),
                             SamplingRate(target.frequency) * FrameSize(target.format), FrameSize(target.format),
                             BitsPerSample(target.format), audio)
  {
    hide ParseWav, Header, FormatPart, DataRate;
    ParseHeader(target, 36 + |audio|, audio);
    HeaderSize(target, 36 + |audio|, |audio|);
    RateBound(target);
  }

  /** The finished file byte by byte, without the reader: the four chunk names, PCM, and by format and
      frequency the channels, block align, sample width and rate, low byte first. */
  lemma ClipFileBytes(target: Properties, audio: seq<byte>)
    ensures var b := ClipFile(target, audio);
      && |b| == 44 + |audio| && b[44..] == audio
      && b[0..4] == [0x52, 0x49, 0x46, 0x46] && b[8..12] == [0x57, 0x41, 0x56, 0x45]
      && b[12..16] == [0x66, 0x6D, 0x74, 0x20] && b[36..40] == [0x64, 0x61, 0x74, 0x61]
      && b[16..22] == [16, 0, 0, 0, 1, 0]
      && b[22..24] + b[32..36] == (match target.format
           case Stereo16 => [2, 0, 4, 0, 16, 0]
           case MonoLeft16 | MonoRight16 | Mono16 => [1, 0, 2, 0, 16, 0]
           case Stereo24 => [2, 0, 6, 0, 24, 0]
           case Surround24 => [6, 0, 18, 0, 24, 0]
           case _ => [0, 0, 0, 0, 0, 0])
      && b[24] as int + 0x100 * b[25] as int + 0x1_0000 * b[26] as int + 0x100_0000 * b[27] as int
         == match target.frequency
            case Hz16000 => 16000
            case Hz24000 => 24000
            case Hz32000 => 32000
            case Hz44100 => 44100
            case Hz48000 => 48000
            case _ => 0
  {
    var b := ClipFile(target, audio);
    HeaderParts(target, RiffSize(|audio|), |audio| % U32, audio);
    NameBytes();
    ParseFormat(target, b);
    FormatBytes(target);
    hide Header, FormatPart, DataRate, RiffSize, ClipFile, Le32, Le16;
    Inner(b, FormatPart(target), 20, 0, 2);
    Inner(b, FormatPart(target), 20, 2, 4);
    Inner(b, FormatPart(target), 20, 12, 16);
    Join(b, 16, 20, 22);
  }

  lemma Join(b: seq<byte>, i: nat, j: nat, k: nat)
    requires i <= j <= k <= |b|
    ensures b[i..k] == b[i..j] + b[j..k]
  {}

  lemma NameBytes()
    ensures Le32(16) == [16, 0, 0, 0]
  {}

  lemma FormatBytes(p: Properties)
    ensures |FormatPart(p)| == 16 && FormatPart(p)[0..2] == [1, 0]
    ensures FormatPart(p)[2..4] + FormatPart(p)[12..16] == match p.format
      case Stereo16 => [2, 0, 4, 0, 16, 0]
      case MonoLeft16 | MonoRight16 | Mono16 => [1, 0, 2, 0, 16, 0]
      case Stereo24 => [2, 0, 6, 0, 24, 0]
      case Surround24 => [6, 0, 18, 0, 24, 0]
      case _ => [0, 0, 0, 0, 0, 0]
  {
    FormatFields(p);
    Join(FormatPart(p), 12, 14, 16);
    hide FormatPart;
  }

  lemma HeaderSize(p: Properties, riffSize: nat, dataSize: nat)
    ensures |Header(p, riffSize, dataSize)| == 44
  {
    HeaderParts(p, riffSize, dataSize, []);
    assert Header(p, riffSize, dataSize) + [] == Header(p, riffSize, dataSize);
  }

  /** The size fields are the file length minus 8 and minus 44 exactly up to that limit. */
  lemma SizeFieldsExactly(target: Properties, audio: seq<byte>)
    ensures var b := ClipFile(target, audio);
      |b| == 44 + |audio| && (ReadLe32(b, 4) == |b| - 8 && ReadLe32(b, 40) == |b| - 44 <==> 36 + |audio| < U32)
  {
    var b, n := ClipFile(target, audio), |audio|;
    HeaderParts(target, RiffSize(n), n % U32, audio);
    Le32RoundTrip(RiffSize(n), b, 4);
    Le32RoundTrip(n % U32, b, 40);
    hide Header, Le32, FormatPart, ReadLe32, ClipFile;
    SizesWrap(n);
  }

  lemma SizesWrap(n: nat)
    ensures RiffSize(n) == 36 + n && n % U32 == n <==> 36 + n < U32
  {}
}
