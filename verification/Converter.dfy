/** The converter's loops over in-memory buffers and the two sinks they write to. */
module Converter {
  import opened AudioProperties
  import opened Striding
  import opened ConverterSpec

  /** A fixed buffer filled from the front; nothing in it checks for room. */
  class MemorySink {
    const buffer: array<byte>
    var writeOffset: nat

    constructor (maxSize: nat)
      ensures fresh(buffer) && buffer.Length == maxSize && writeOffset == 0
    {
      buffer := new byte[maxSize](_ => 0);
      writeOffset := 0;
    }

    method WriteData(data: seq<byte>)
      requires writeOffset + |data| <= buffer.Length
      modifies this, buffer
      ensures writeOffset == old(writeOffset) + |data|
      ensures buffer[..writeOffset] == old(buffer[..writeOffset]) + data
    {
      forall k | 0 <= k < |data| {
        buffer[writeOffset + k] := data[k];
      }
      writeOffset := writeOffset + |data|;
    }
  }

  /** An output file stream: its bytes and the put position, where writing overwrites or extends. */
  class OutFile {
    var bytes: seq<byte>
    var position: nat

    constructor ()
      ensures bytes == [] && position == 0
    {
      bytes, position := [], 0;
    }

    method Write(data: seq<byte>)
      requires position <= |bytes|
      modifies this
      ensures position == old(position) + |data| <= |bytes|
      ensures bytes == old(bytes[..position]) + data
        + (if old(position) + |data| < |old(bytes)| then old(bytes)[old(position) + |data|..] else [])
      ensures old(position) == |old(bytes)| ==> bytes == old(bytes) + data
    {
      bytes := bytes[..position] + data
        + (if position + |data| < |bytes| then bytes[position + |data|..] else []);
      position := position + |data|;
    }

    method SeekTo(p: nat)
      requires p <= |bytes|
      modifies this`position
      ensures position == p
    {
      position := p;
    }
  }

  datatype Sink = ToMemory(memory: MemorySink) | ToFile(file: OutFile)
  {
    ghost function Objects(): set<object> {
      match this
      case ToMemory(m) => {m, m.buffer}
      case ToFile(f) => {f}
    }

    /** The next write goes to the end of what is there. */
    ghost predicate Open()
      reads Objects()
    {
      match this
      case ToMemory(m) => m.writeOffset <= m.buffer.Length
      case ToFile(f) => f.position == |f.bytes|
    }

    ghost function Written(): seq<byte>
      requires Open()
      reads Objects()
    {
      match this
      case ToMemory(m) => m.buffer[..m.writeOffset]
      case ToFile(f) => f.bytes
    }

    ghost predicate Fits(n: nat)
      reads Objects()
    {
      Open() && (ToMemory? ==> |Written()| + n <= memory.buffer.Length)
    }

    method WriteData(data: seq<byte>) returns (ret: int)
      requires Fits(|data|)
      modifies Objects()
      ensures Open() && Written() == old(Written()) + data && ret == 0
    {
      match this {
        case ToMemory(m) => m.WriteData(data);
        case ToFile(f) => f.Write(data);
      }
      ret := 0;
    }
  }

  class AudioConverter {
    const input: Properties
    const output: Properties
    const sink: Sink
    var op: ConversionOp

    constructor (input: Properties, output: Properties, sink: Sink)
      requires !DividesByZero(input, output)
      ensures this.input == input && this.output == output && this.sink == sink
      ensures op == OpFor(input, output)
    {
      this.input, this.output, this.sink := input, output, sink;
      op := Unsupported;
      new;
      var _ := ProcessConversionParams();
    }

    /** Chooses the operation; -1 if formats or rates do not go together. */
    method ProcessConversionParams() returns (ret: int)
      requires !DividesByZero(input, output)
      modifies this
      ensures op == OpFor(input, output)
      ensures ret == if op.Unsupported? then -1 else 0
    {
      var formatOk, rateOk, downmix, downsample := false, false, false, false;
      ret := -1;
      op := Unsupported;
      if output.format.Mono16? && input.format.Stereo16? {
        formatOk, downmix := true, true;
      } else if output.format == input.format {
        formatOk := true;
      } else if output.format.Mono16? && (input.format.MonoLeft16? || input.format.MonoRight16?) {
        formatOk := true;
      }
      if formatOk {
        var inRate, outRate := SamplingRate(input.frequency), SamplingRate(output.frequency);
        if outRate > inRate {
        } else if inRate % outRate != 0 {
        } else {
          rateOk := true;
          if outRate < inRate {
            downsample := true;
          }
        }
      }
      if formatOk && rateOk {
        if downmix && downsample {
          op := DownmixAndDownsample;
        } else if downmix {
          op := ConversionOp.Downmix;
        } else if downsample {
          op := Downsample;
        } else {
          op := NoConversion;
        }
        ret := 0;
      }
    }

    /** The inner loop over one buffer: w bytes at readOffset and after every leap, counting the
        buffer's full size down; what the last leap overshoots is the next buffer's offset. */
    method StrideBuffer(data: seq<byte>, readOffset: nat, leap: nat, w: nat) returns (overshoot: nat)
      requires leap > 0 && ReadsInside(readOffset, |data|, leap, w)
      requires sink.Fits(Steps(|data|, leap) * w)
      modifies sink.Objects()
      ensures InRange(data, Run(readOffset, Steps(|data|, leap), leap), w)
      ensures sink.Open()
      ensures sink.Written() == old(sink.Written()) + Gather(data, Run(readOffset, Steps(|data|, leap), leap), w)
      ensures overshoot == Pad(|data|, leap)
    {
      hide Steps, ReadsInside, InRange, Run, Gather;
      var bufferSize, ptr := |data|, readOffset;
      ghost var k, total := 0, Steps(|data|, leap);
      ghost var before := sink.Written();
      StrideNone(data, readOffset, leap, w);
      while bufferSize > 0
        invariant k <= total && bufferSize == |data| - k * leap && ptr == readOffset + k * leap
        invariant InRange(data, Run(readOffset, k, leap), w)
        invariant sink.Open()
        invariant sink.Written() == before + Gather(data, Run(readOffset, k, leap), w)
        decreases bufferSize
      {
        StrideStep(data, readOffset, leap, w, k);
        var _ := sink.WriteData(data[ptr..ptr+w]);
        bufferSize := bufferSize - leap;
        ptr := ptr + leap;
        k := k + 1;
      }
      AllSteps(|data|, leap, k);
      overshoot := -bufferSize;
    }

    method DownsampleAndDownmix(queue: seq<seq<byte>>, size: int) returns (ret: int)
      requires Convertible(input, output, queue, size, sink.ToMemory?)
      requires op == OpFor(input, output) && Strides(op)
      requires sink.Fits(|Converted(input, output, queue, size, sink.ToMemory?)|)
      modifies sink.Objects()
      ensures sink.Open() && ret == 0
      ensures sink.Written() == old(sink.Written()) + Converted(input, output, queue, size, sink.ToMemory?)
    {
      var sampleSize := BitsPerSample(input.format) / 8;
      var frameSize := Channels(input.format) * sampleSize;
      var leap := frameSize * SamplingRate(input.frequency) / SamplingRate(output.frequency);
      var w := if op.DownmixAndDownsample? then sampleSize else frameSize;
      StrideAll(queue, size, leap, w);
      ret := 0;
    }

    /** The outer loop: buffers in order until the budget is used up. */
    method StrideAll(queue: seq<seq<byte>>, size: int, leap: nat, w: nat)
      requires leap > 0 && AllReadsInside(Sizes(queue[..Cut(Sizes(queue), size)]), leap, w)
      requires sink.Fits(|StridedOutput(queue[..Cut(Sizes(queue), size)], leap, w)|)
      modifies sink.Objects()
      ensures sink.Open()
      ensures sink.Written() == old(sink.Written()) + StridedOutput(queue[..Cut(Sizes(queue), size)], leap, w)
    {
      hide StridedOutput, AllReadsInside, Total, Carry;
      ghost var ns, before := Sizes(queue), sink.Written();
      ghost var cut := Cut(ns, size);
      var readOffset, left, i := 0, size, 0;
      NothingYet(queue, cut, leap, w);
      while i < |queue|
        invariant i <= cut && left == size - Total(ns[..i]) && readOffset == Carry(ns[..i], leap)
        invariant forall j :: 0 < j <= i ==> Total(ns[..j]) < size
        invariant AllReadsInside(Sizes(queue[..i]), leap, w)
        invariant sink.Open() && sink.Written() == before + StridedOutput(queue[..i], leap, w)
      {
        CutAdvance(ns, size, i);
        NextBuffer(queue, cut, i, leap, w);
        readOffset := StrideBuffer(queue[i], readOffset, leap, w);
        left := left - |queue[i]|;
        i := i + 1;
        if 0 >= left {
          break;
        }
      }
      assert i == cut;
    }

    method Downmix(queue: seq<seq<byte>>, size: int) returns (ret: int)
      requires Convertible(input, output, queue, size, sink.ToMemory?)
      requires op == OpFor(input, output) == ConversionOp.Downmix
      requires sink.Fits(|Converted(input, output, queue, size, sink.ToMemory?)|)
      requires sink.ToMemory? ==> sink.memory.writeOffset == 0
      modifies sink.Objects()
      ensures sink.Open() && ret == 0
      ensures sink.Written() == old(sink.Written()) + Converted(input, output, queue, size, sink.ToMemory?)
    {
      hide Converted, Convertible, Thinned, StridedOutput, AllReadsInside, Flatten, FrameAligned, Cut;
      DownmixIsThinning(input, output, queue, size, sink.ToMemory?);
      var sampleSize := BitsPerSample(input.format) / 8;
      var frameSize := Channels(input.format) * sampleSize;
      assert sampleSize == 2 && frameSize == 4;
      if sink.ToMemory? && BitsPerSample(input.format) == 16 && Channels(input.format) == 2 {
        assert sink.Written() == [];
        FastDownmix(queue, sink.memory);
        assert sink.Written() == Thinned(Flatten(queue), 4, 2);
      } else {
        SlowDownmix(queue, size, frameSize, sampleSize);
      }
      ret := 0;
    }

    /** The plain form: the first sample of every frame, through the sink's write, within the budget. */
    method SlowDownmix(queue: seq<seq<byte>>, size: int, frame: nat, sample: nat)
      requires 0 < frame && FrameAligned(Sizes(queue[..Cut(Sizes(queue), size)]), frame)
      requires AllReadsInside(Sizes(queue[..Cut(Sizes(queue), size)]), frame, sample)
      requires sink.Fits(|StridedOutput(queue[..Cut(Sizes(queue), size)], frame, sample)|)
      modifies sink.Objects()
      ensures sink.Open()
      ensures sink.Written() == old(sink.Written()) + StridedOutput(queue[..Cut(Sizes(queue), size)], frame, sample)
    {
      hide StridedOutput, AllReadsInside, Total, Carry, FrameAligned;
      ghost var ns, before := Sizes(queue), sink.Written();
      ghost var cut := Cut(ns, size);
      var left, i := size, 0;
      NothingYet(queue, cut, frame, sample);
      while i < |queue|
        invariant i <= cut && left == size - Total(ns[..i])
        invariant forall j :: 0 < j <= i ==> Total(ns[..j]) < size
        invariant AllReadsInside(Sizes(queue[..i]), frame, sample)
        invariant sink.Open() && sink.Written() == before + StridedOutput(queue[..i], frame, sample)
      {
        CutAdvance(ns, size, i);
        NextBuffer(queue, cut, i, frame, sample);
        AlignedCarry(queue, cut, i, frame);
        var _ := StrideBuffer(queue[i], 0, frame, sample);
        left := left - |queue[i]|;
        i := i + 1;
        if 0 >= left {
          break;
        }
      }
      assert i == cut;
    }

    method Passthrough(queue: seq<seq<byte>>, size: int) returns (ret: int)
      requires sink.Fits(|Flatten(queue[..Cut(Sizes(queue), size + 1)])|)
      modifies sink.Objects()
      ensures sink.Open() && ret == if queue == [] then -1 else 0
      ensures sink.Written() == old(sink.Written()) + Flatten(queue[..Cut(Sizes(queue), size + 1)])
    {
      hide Total, Flatten;
      ghost var ns, before := Sizes(queue), sink.Written();
      ghost var cut := Cut(ns, size + 1);
      assert Total(ns[..0]) == 0 && Flatten(queue[..0]) == [] by { NoBytes(queue); }
      var left, i := size, 0;
      ret := -1;
      while i < |queue|
        invariant i <= cut && left == size - Total(ns[..i]) && ret == if i == 0 then -1 else 0
        invariant forall j :: 0 < j <= i ==> Total(ns[..j]) < size + 1
        invariant sink.Open() && sink.Written() == before + Flatten(queue[..i])
      {
        CutAdvance(ns, size + 1, i);
        FlattenPrefix(queue, i, cut);
        ret := sink.WriteData(queue[i]);
        left := left - |queue[i]|;
        i := i + 1;
        if 0 > left {
          break;
        }
      }
      assert i == cut;
    }

    method Convert(queue: seq<seq<byte>>, size: int) returns (ret: int)
      requires Convertible(input, output, queue, size, sink.ToMemory?)
      requires op == OpFor(input, output)
      requires sink.Fits(|Converted(input, output, queue, size, sink.ToMemory?)|)
      requires sink.ToMemory? && op.Downmix? ==> sink.memory.writeOffset == 0
      modifies sink.Objects()
      ensures sink.Open()
      ensures sink.Written() == old(sink.Written()) + Converted(input, output, queue, size, sink.ToMemory?)
      ensures ret == if op.Unsupported? || (op.NoConversion? && queue == []) then -1 else 0
    {
      match op {
        case DownmixAndDownsample => ret := DownsampleAndDownmix(queue, size);
        case Downmix => ret := Downmix(queue, size);
        case Downsample => ret := DownsampleAndDownmix(queue, size);
        case NoConversion => ret := Passthrough(queue, size);
        case Unsupported => ret := -1;
      }
    }
  }

  lemma DownmixIsThinning(input: Properties, output: Properties, queue: seq<seq<byte>>, size: int, memory: bool)
    requires Convertible(input, output, queue, size, memory) && OpFor(input, output).Downmix?
    ensures input.format.Stereo16?
    ensures var chunks := Consumed(ConversionOp.Downmix, queue, size, memory);
      && FrameAligned(Sizes(chunks), 4) && |Flatten(chunks)| % 4 == 0
      && Converted(input, output, queue, size, memory) == Thinned(Flatten(chunks), 4, 2)
      && |Converted(input, output, queue, size, memory)| == |Flatten(chunks)| / 2
      && AllReadsInside(Sizes(chunks), 4, 2) && StridedOutput(chunks, 4, 2) == Thinned(Flatten(chunks), 4, 2)
  {
    var chunks := Consumed(ConversionOp.Downmix, queue, size, memory);
    AlignedStride(chunks, 4, 2);
    ThinnedSize(Flatten(chunks), 4, 2);
  }

  // ----- what the written bytes are, pair by pair of properties -----

  /** w bytes at each of the offsets, one read after the other. */
  ghost predicate IsPick(written: seq<byte>, stream: seq<byte>, offsets: seq<nat>, w: nat) {
    && w > 0 && |written| == |offsets| * w
    && forall i :: 0 <= i < |written| ==>
         i / w < |offsets| && offsets[i / w] + i % w < |stream| && written[i] == stream[offsets[i / w] + i % w]
  }

  /** The bytes written, in terms of the queued bytes alone. Unchanged: the shortest non-empty prefix of the
      queue that exceeds the budget, or all of it. Stereo to mono at one frequency: the left samples, of the
      whole queue into memory, of the buffers that meet the budget into a file. Strided: two or three frames
      to a leap. Anything else: nothing. */
  ghost predicate IsConversion(input: Properties, output: Properties, queue: seq<seq<byte>>, size: int, memory: bool,
                               written: seq<byte>)
  {
    var downmix := input.format == Stereo16 && output.format == Mono16;
    var formatsOk := downmix || input.format == output.format
      || (output.format == Mono16 && input.format in {MonoLeft16, MonoRight16});
    var pair := (input.frequency, output.frequency);
    if !formatsOk then written == []
    else if input.frequency == output.frequency then
      if !downmix then exists k: nat :: IsCut(Sizes(queue), size + 1, k) && written == Flatten(queue[..k])
      else if memory then IsLeftHalf(written, Flatten(queue))
      else exists k: nat :: IsCut(Sizes(queue), size, k) && IsLeftHalf(written, Flatten(queue[..k]))
    else if pair in {(Hz48000, Hz24000), (Hz32000, Hz16000), (Hz48000, Hz16000)} then
      var frame, ratio := FrameSize(input.format), if pair == (Hz48000, Hz16000) then 3 else 2;
      && frame > 0
      && exists k: nat ::
           && IsCut(Sizes(queue), size, k)
           && IsPick(written, Flatten(queue[..k]), CodeOffsets(Sizes(queue[..k]), frame * ratio),
                     if downmix then 2 else frame)
    else written == []
  }

  lemma ConversionIs(input: Properties, output: Properties, queue: seq<seq<byte>>, size: int, memory: bool,
                     written: seq<byte>)
    requires Convertible(input, output, queue, size, memory)
    requires written == Converted(input, output, queue, size, memory)
    ensures IsConversion(input, output, queue, size, memory, written)
  {
    hide Convertible, Converted, OpFor, Cut, Flatten, Sizes, IsPick, IsLeftHalf, IsCut, Leap, CodeOffsets;
    ConvertibleDivides(input, output, queue, size, memory);
    OperationTable(input, output);
    match OpFor(input, output) {
      case NoConversion => PassedThrough(input, output, queue, size, memory, written);
      case Downmix => LeftHalf(input, output, queue, size, memory, written);
      case Downsample | DownmixAndDownsample =>
        var frame := FrameSize(input.format);
        var ratio := if (input.frequency, output.frequency) == (Hz48000, Hz16000) then 3 else 2;
        var w := if OpFor(input, output).DownmixAndDownsample? then 2 else frame;
        Picked(input, output, queue, size, memory, written, frame, ratio, frame * ratio, w);
      case Unsupported => Unconverted(input, output, queue, size, memory);
    }
  }

  lemma PassedThrough(input: Properties, output: Properties, queue: seq<seq<byte>>, size: int, memory: bool,
                      written: seq<byte>)
    requires Convertible(input, output, queue, size, memory) && OpFor(input, output).NoConversion?
    requires written == Converted(input, output, queue, size, memory)
    ensures exists k: nat :: IsCut(Sizes(queue), size + 1, k) && written == Flatten(queue[..k])
  {
    hide Convertible, Converted, OpFor, Cut, Flatten;
    Unconverted(input, output, queue, size, memory);
    var k := Cut(Sizes(queue), size + 1);
    assert IsCut(Sizes(queue), size + 1, k) && written == Flatten(queue[..k]);
  }

  lemma LeftHalf(input: Properties, output: Properties, queue: seq<seq<byte>>, size: int, memory: bool,
                 written: seq<byte>)
    requires Convertible(input, output, queue, size, memory) && OpFor(input, output).Downmix?
    requires written == Converted(input, output, queue, size, memory)
    ensures if memory then IsLeftHalf(written, Flatten(queue))
      else exists k: nat :: IsCut(Sizes(queue), size, k) && IsLeftHalf(written, Flatten(queue[..k]))
  {
    hide Convertible, Converted, OpFor, Cut, Flatten, Thinned, IsLeftHalf;
    DownmixIsThinning(input, output, queue, size, memory);
    var k := Cut(Sizes(queue), size);
    LeftSamplesOf(Flatten(if memory then queue else queue[..k]), written);
    assert IsCut(Sizes(queue), size, k);
  }

  lemma Picked(input: Properties, output: Properties, queue: seq<seq<byte>>, size: int, memory: bool,
               written: seq<byte>, frame: nat, ratio: nat, leap: nat, w: nat)
    requires Convertible(input, output, queue, size, memory) && Strides(OpFor(input, output))
    requires written == Converted(input, output, queue, size, memory)
    requires frame == FrameSize(input.format) && leap == frame * ratio
    requires ratio == if input.frequency == Hz48000 && output.frequency == Hz16000 then 3 else 2
    requires w == if OpFor(input, output).DownmixAndDownsample? then 2 else frame
    ensures frame > 0 && leap > 0
    ensures exists k: nat ::
      && IsCut(Sizes(queue), size, k)
      && IsPick(written, Flatten(queue[..k]), CodeOffsets(Sizes(queue[..k]), leap), w)
  {
    hide Cut, Flatten, CodeOffsets, AllReadsInside, IsPick, FrameSize, Leap, Ratio, DataRate, Sizes, StridedOutput;
    var k := Cut(Sizes(queue), size);
    ConvertibleDivides(input, output, queue, size, memory);
    OperationTable(input, output);
    FrameSizes(input.format);
    LeapIsWholeFrames(input, output);
    RatioTable(input, output);
    PickMeans(queue[..k], leap, w, written);
    assert IsCut(Sizes(queue), size, k);
  }

  lemma PickMeans(chunks: seq<seq<byte>>, leap: nat, w: nat, written: seq<byte>)
    requires leap > 0 && w > 0 && AllReadsInside(Sizes(chunks), leap, w) && written == StridedOutput(chunks, leap, w)
    ensures IsPick(written, Flatten(chunks), CodeOffsets(Sizes(chunks), leap), w)
  {
    hide Flatten, CodeOffsets, AllReadsInside, Sizes, Gather, InRange, IsPick;
    CodeOffsetsInRange(chunks, leap, w);
    GatherIsPick(Flatten(chunks), CodeOffsets(Sizes(chunks), leap), w);
  }

  lemma GatherIsPick(d: seq<byte>, offsets: seq<nat>, w: nat)
    requires w > 0 && InRange(d, offsets, w)
    ensures IsPick(Gather(d, offsets, w), d, offsets, w)
  {
    hide InRange, Gather;
    GatherSize(d, offsets, w);
    var written := Gather(d, offsets, w);
    forall i | 0 <= i < |written|
      ensures i / w < |offsets| && offsets[i / w] + i % w < |d| && written[i] == d[offsets[i / w] + i % w]
    {
      PickAt(d, offsets, w, i, i / w, i % w);
    }
  }

  lemma PickAt(d: seq<byte>, offsets: seq<nat>, w: nat, i: nat, k: nat, b: nat)
    requires w > 0 && InRange(d, offsets, w) && i < |offsets| * w && k == i / w && b == i % w
    ensures k < |offsets| && offsets[k] + b < |d| && i < |Gather(d, offsets, w)|
    ensures Gather(d, offsets, w)[i] == d[offsets[k] + b]
  {
    hide Gather;
    InQuotient(i, |offsets|, w);
    GatherMeans(d, offsets, w, k, b);
  }

  lemma InQuotient(i: nat, n: nat, w: nat)
    requires w > 0 && i < n * w
    ensures i / w < n && i / w * w + i % w == i && i % w < w
  {
    if n <= i / w { MulMono(n, i / w, w); }
  }

  lemma AlignedCarry(queue: seq<seq<byte>>, cut: nat, i: nat, frame: nat)
    requires frame > 0 && i < cut <= |queue| && FrameAligned(Sizes(queue[..cut]), frame)
    ensures Carry(Sizes(queue)[..i], frame) == 0
  {
    if i > 0 {
      assert Sizes(queue[..cut])[i-1] == |queue[i-1]|;
      MultipleHasNoPad(|queue[i-1]|, frame);
    }
  }

  lemma {:induction false} FlattenPrefix(queue: seq<seq<byte>>, i: nat, cut: nat)
    requires i < cut <= |queue|
    ensures Flatten(queue[..i+1]) == Flatten(queue[..i]) + queue[i]
    ensures |Flatten(queue[..i])| + |queue[i]| <= |Flatten(queue[..cut])|
    decreases cut
  {
    assert queue[..i+1][..i] == queue[..i];
    if i + 1 < cut {
      FlattenPrefix(queue, i, cut - 1);
      assert queue[..cut][..cut-1] == queue[..cut-1];
    }
  }

  // ----- the unrolled downmix -----

  /** Where byte k of a downmix comes from: two bytes out of every four. */
  function LeftAt(k: nat): nat { 4 * (k / 2) + k % 2 }

  ghost predicate Copied(dst: array<byte>, d: nat, n: nat, src: seq<byte>, s: nat)
    reads dst
  {
    d + n <= dst.Length && s + 2 * n <= |src| && forall k :: d <= k < d + n ==> dst[k] == src[s + LeftAt(k - d)]
  }

  /** One 16-bit assignment: sample n / 2 of the destination from the left sample of that frame. */
  method CopySample(dst: array<byte>, d: nat, n: nat, src: seq<byte>, s: nat)
    requires n % 2 == 0 && d + n + 2 <= dst.Length && s + 2 * n + 4 <= |src| && Copied(dst, d, n, src, s)
    modifies dst
    ensures Copied(dst, d, n + 2, src, s)
    ensures forall k :: 0 <= k < dst.Length && (k < d || k >= d + n + 2) ==> dst[k] == old(dst[k])
  {
    dst[d+n], dst[d+n+1] := src[s+2*n], src[s+2*n+1];
    assert LeftAt(n) == 2 * n && LeftAt(n + 1) == 2 * n + 1;
  }

  /** The unrolled body: eight frames, 32 bytes in, 16 bytes out. */
  method CopyEightFrames(dst: array<byte>, d: nat, src: seq<byte>, s: nat)
    requires d + 16 <= dst.Length && s + 32 <= |src|
    modifies dst
    ensures Copied(dst, d, 16, src, s)
    ensures forall k :: 0 <= k < dst.Length && (k < d || k >= d + 16) ==> dst[k] == old(dst[k])
  {
    CopySample(dst, d, 0, src, s);
    CopySample(dst, d, 2, src, s);
    CopySample(dst, d, 4, src, s);
    CopySample(dst, d, 6, src, s);
    CopySample(dst, d, 8, src, s);
    CopySample(dst, d, 10, src, s);
    CopySample(dst, d, 12, src, s);
    CopySample(dst, d, 14, src, s);
  }

  /** The sink's bytes up to d are the left samples of the first 2 * d bytes of the stream. */
  ghost predicate LeftSamples(dst: seq<byte>, d: nat, stream: seq<byte>) {
    d <= |dst| && 2 * d <= |stream| && forall k :: 0 <= k < d ==> dst[k] == stream[LeftAt(k)]
  }

  lemma NothingCopied(dst: array<byte>, d: nat, src: seq<byte>, s: nat)
    requires d <= dst.Length && s <= |src|
    ensures Copied(dst, d, 0, src, s)
  {}

  lemma JoinLeft(dst: array<byte>, was: seq<byte>, d: nat, n: nat, stream: seq<byte>, data: seq<byte>, base: nat, s: nat)
    requires |was| == dst.Length && LeftSamples(was, d, stream) && forall k :: 0 <= k < d ==> dst[k] == was[k]
    requires Copied(dst, d, n, data, s)
    requires d % 2 == 0 && 2 * d == base + s && base + |data| <= |stream| && stream[base..base+|data|] == data
    ensures LeftSamples(dst[..], d + n, stream)
  {
    forall k | d <= k < d + n ensures dst[k] == stream[LeftAt(k)] {
      LeftShift(d, k - d);
      var at := s + LeftAt(k - d);
      assert at < |data| && dst[k] == data[at] == stream[base..base+|data|][at];
    }
  }

  lemma LeftShift(d: nat, m: nat)
    requires d % 2 == 0
    ensures LeftAt(d + m) == 2 * d + LeftAt(m) && LeftAt(m) <= 2 * m
  {}

  /** The loops of the optimised form: the whole queue, straight into the buffer from its start, counting
      on from wherever the sink stood. */
  method FastCopy(queue: seq<seq<byte>>, memory: MemorySink) returns (writeOffset: nat)
    requires FrameAligned(Sizes(queue), 4) && |Flatten(queue)| % 4 == 0
    requires |Flatten(queue)| / 2 <= memory.buffer.Length
    modifies memory.buffer
    ensures writeOffset == memory.writeOffset + |Flatten(queue)| / 2
    ensures memory.buffer[..|Flatten(queue)| / 2] == Thinned(Flatten(queue), 4, 2)
    ensures forall k :: |Flatten(queue)| / 2 <= k < memory.buffer.Length ==> memory.buffer[k] == old(memory.buffer[k])
  {
    hide Flatten, Thinned, Copied;
    ghost var stream, before := Flatten(queue), memory.buffer[..];
    var dptr, i := 0, 0;
    writeOffset := memory.writeOffset;
    NoBytes(queue);
    while i < |queue|
      invariant i <= |queue| && |Flatten(queue[..i])| % 4 == 0 && 2 * dptr == |Flatten(queue[..i])| <= |stream|
      invariant writeOffset == memory.writeOffset + dptr
      invariant LeftSamples(memory.buffer[..], dptr, stream) && SameBeyond(memory.buffer[..], |stream| / 2, before)
    {
      FlattenPrefix(queue, i, |queue|);
      StreamAt(queue, i);
      assert Sizes(queue)[i] % 4 == 0;
      dptr, writeOffset := FastBuffer(memory, queue[i], dptr, writeOffset, stream, |Flatten(queue[..i])|, before);
      i := i + 1;
    }
    assert queue[..i] == queue;
    LeftIsThinned(memory.buffer, stream);
  }

  /** The optimised form. */
  method FastDownmix(queue: seq<seq<byte>>, memory: MemorySink)
    requires FrameAligned(Sizes(queue), 4) && |Flatten(queue)| % 4 == 0
    requires |Flatten(queue)| / 2 <= memory.buffer.Length
    modifies memory, memory.buffer
    ensures memory.writeOffset == old(memory.writeOffset) + |Flatten(queue)| / 2
    ensures memory.buffer[..|Flatten(queue)| / 2] == Thinned(Flatten(queue), 4, 2)
    ensures forall k :: |Flatten(queue)| / 2 <= k < memory.buffer.Length ==> memory.buffer[k] == old(memory.buffer[k])
    ensures memory.writeOffset <= memory.buffer.Length ==>
      memory.buffer[..memory.writeOffset]
      == FastWritten(old(memory.buffer[..]), old(memory.writeOffset), Thinned(Flatten(queue), 4, 2))
  {
    ThinnedSize(Flatten(queue), 4, 2);
    hide Flatten, Thinned, FastWritten, FrameAligned;
    ghost var offset, before := memory.writeOffset, memory.buffer[..];
    var writeOffset := FastCopy(queue, memory);
    memory.writeOffset := writeOffset;
    OverwrittenFront(before, memory.buffer[..], Thinned(Flatten(queue), 4, 2), offset);
  }

  lemma OverwrittenFront(before: seq<byte>, now: seq<byte>, samples: seq<byte>, offset: nat)
    requires |now| == |before| && |samples| <= |now| && now[..|samples|] == samples
    requires forall k :: |samples| <= k < |now| ==> now[k] == before[k]
    ensures offset + |samples| <= |before| ==> now[..offset+|samples|] == FastWritten(before, offset, samples)
  {
    assert now == samples + before[|samples|..];
  }

  /** What the unrolled form leaves up to the sink's new write offset: its samples from the start of the
      buffer, whatever the offset was. */
  function FastWritten(before: seq<byte>, offset: nat, samples: seq<byte>): seq<byte>
    requires offset + |samples| <= |before|
  {
    (samples + before[|samples|..])[..offset+|samples|]
  }

  /** It leaves what appending the samples would leave, whatever they are, if and only if the sink was
      empty or there are none. */
  lemma FastNeedsEmptySink(before: seq<byte>, offset: nat, n: nat)
    requires offset + n <= |before|
    ensures (forall samples: seq<byte> :: |samples| == n ==>
               FastWritten(before, offset, samples) == before[..offset] + samples)
      <==> offset == 0 || n == 0
  {
    if offset == 0 || n == 0 {
      forall samples: seq<byte> | |samples| == n
        ensures FastWritten(before, offset, samples) == before[..offset] + samples {}
    } else {
      var other: byte := if before[0] == 0 then 1 else 0;
      var samples: seq<byte> := seq(n, _ => other);
      assert FastWritten(before, offset, samples)[0] == other && (before[..offset] + samples)[0] == before[0];
    }
  }

  lemma LeftIsThinned(dst: array<byte>, stream: seq<byte>)
    requires |stream| % 4 == 0 && LeftSamples(dst[..], |stream| / 2, stream)
    ensures dst[..|stream| / 2] == Thinned(stream, 4, 2)
  {
    ThinnedSize(stream, 4, 2);
    var t := Thinned(stream, 4, 2);
    forall k | 0 <= k < |t| ensures t[k] == dst[k] {
      ThinnedAt(stream, k);
    }
  }

  /** Where the pointers stand inside buffer `data`, which starts at `base` in the stream. */
  ghost predicate AtFrame(memory: MemorySink, data: seq<byte>, stream: seq<byte>, base: nat, sptr: nat, dptr: nat)
    reads memory.buffer
  {
    && |data| % 4 == 0 && base % 4 == 0 && base + |data| <= |stream| && stream[base..base+|data|] == data
    && |stream| / 2 <= memory.buffer.Length
    && sptr <= |data| && sptr % 4 == 0 && 2 * dptr == base + sptr
    && LeftSamples(memory.buffer[..], dptr, stream)
  }

  /** From `end` on the buffer is what it was. */
  ghost predicate SameBeyond(dst: seq<byte>, end: nat, before: seq<byte>) {
    |dst| == |before| && forall k :: end <= k < |dst| ==> dst[k] == before[k]
  }

  lemma StillBeyond(dst: array<byte>, was: seq<byte>, end: nat, before: seq<byte>)
    requires SameBeyond(was, end, before) && |was| == dst.Length && forall k :: end <= k < dst.Length ==> dst[k] == was[k]
    ensures SameBeyond(dst[..], end, before)
  {}

  lemma RoomInSink(streamSize: nat, base: nat, size: nat, sptr: nat, dptr: nat, n: nat)
    requires base + size <= streamSize && 2 * dptr == base + sptr && sptr + 2 * n <= size
    requires base % 4 == 0 && sptr % 4 == 0 && n % 2 == 0
    ensures dptr + n <= streamSize / 2 && dptr % 2 == 0 && (sptr + 2 * n) % 4 == 0
  {}

  /** Copies n bytes' worth of samples, one frame or eight. */
  method CopyFrames(memory: MemorySink, data: seq<byte>, sptr: nat, dptr: nat, n: nat,
                    ghost stream: seq<byte>, ghost base: nat, ghost before: seq<byte>)
    requires AtFrame(memory, data, stream, base, sptr, dptr) && (n == 2 || n == 16) && sptr + 2 * n <= |data|
    requires SameBeyond(memory.buffer[..], |stream| / 2, before)
    modifies memory.buffer
    ensures AtFrame(memory, data, stream, base, sptr + 2 * n, dptr + n)
    ensures SameBeyond(memory.buffer[..], |stream| / 2, before)
  {
    hide LeftSamples, Copied, SameBeyond;
    RoomInSink(|stream|, base, |data|, sptr, dptr, n);
    ghost var was := memory.buffer[..];
    if n == 16 {
      CopyEightFrames(memory.buffer, dptr, data, sptr);
    } else {
      NothingCopied(memory.buffer, dptr, data, sptr);
      CopySample(memory.buffer, dptr, 0, data, sptr);
    }
    JoinLeft(memory.buffer, was, dptr, n, stream, data, base, sptr);
    StillBeyond(memory.buffer, was, |stream| / 2, before);
  }

  /** One buffer: while 32 bytes remain, eight frames per round, then one frame per round until exactly
      nothing remains. */
  method FastBuffer(memory: MemorySink, data: seq<byte>, dptr0: nat, writeOffset0: nat,
                    ghost stream: seq<byte>, ghost base: nat, ghost before: seq<byte>)
    returns (dptr: nat, writeOffset: nat)
    requires AtFrame(memory, data, stream, base, 0, dptr0) && SameBeyond(memory.buffer[..], |stream| / 2, before)
    modifies memory.buffer
    ensures AtFrame(memory, data, stream, base, |data|, dptr) && writeOffset == writeOffset0 + dptr - dptr0
    ensures SameBeyond(memory.buffer[..], |stream| / 2, before)
  {
    hide LeftSamples, Copied, SameBeyond;
    var remaining, sptr := |data|, 0;
    dptr, writeOffset := dptr0, writeOffset0;
    while 32 <= remaining
      invariant 0 <= remaining && sptr + remaining == |data| && AtFrame(memory, data, stream, base, sptr, dptr)
      invariant writeOffset == writeOffset0 + dptr - dptr0 && SameBeyond(memory.buffer[..], |stream| / 2, before)
    {
      CopyFrames(memory, data, sptr, dptr, 16, stream, base, before);
      dptr := dptr + 16;
      sptr := sptr + 32;
      remaining := remaining - 32;
      writeOffset := writeOffset + 16;
    }
    while remaining != 0
      invariant 0 <= remaining && sptr + remaining == |data| && AtFrame(memory, data, stream, base, sptr, dptr)
      invariant writeOffset == writeOffset0 + dptr - dptr0 && SameBeyond(memory.buffer[..], |stream| / 2, before)
      decreases remaining
    {
      assert remaining >= 4;
      CopyFrames(memory, data, sptr, dptr, 2, stream, base, before);
      dptr := dptr + 2;
      sptr := sptr + 4;
      remaining := remaining - 4;
      writeOffset := writeOffset + 2;
    }
  }

  lemma {:induction false} StreamAt(queue: seq<seq<byte>>, i: nat)
    requires i < |queue|
    ensures var base := |Flatten(queue[..i])|;
      base + |queue[i]| <= |Flatten(queue)| && Flatten(queue)[base..base+|queue[i]|] == queue[i]
  {
    var n := |queue| - 1;
    if i < n {
      StreamAt(queue[..n], i);
      assert queue[..n][..i] == queue[..i];
      var base := |Flatten(queue[..i])|;
      assert Flatten(queue)[base..base+|queue[i]|] == Flatten(queue[..n])[base..base+|queue[i]|];
    }
  }

  lemma NoBytes(queue: seq<seq<byte>>)
    ensures Total(Sizes(queue)[..0]) == 0 && Flatten(queue[..0]) == []
  {}

  lemma NothingYet(queue: seq<seq<byte>>, cut: nat, leap: nat, w: nat)
    requires leap > 0 && cut <= |queue| && AllReadsInside(Sizes(queue[..cut]), leap, w)
    ensures Total(Sizes(queue)[..0]) == 0 && Carry(Sizes(queue)[..0], leap) == 0
    ensures AllReadsInside(Sizes(queue[..0]), leap, w) && StridedOutput(queue[..0], leap, w) == []
  {}

  /** What the outer loop needs to know about buffer i of the first `cut`, which it will consume. */
  lemma NextBuffer(queue: seq<seq<byte>>, cut: nat, i: nat, leap: nat, w: nat)
    requires leap > 0 && i < cut <= |queue| && AllReadsInside(Sizes(queue[..cut]), leap, w)
    ensures AllReadsInside(Sizes(queue[..i]), leap, w) && AllReadsInside(Sizes(queue[..i+1]), leap, w)
    ensures Carry(Sizes(queue)[..i+1], leap) == Pad(|queue[i]|, leap)
    ensures var c := Carry(Sizes(queue)[..i], leap);
      var run := Run(c, Steps(|queue[i]|, leap), leap);
      && ReadsInside(c, |queue[i]|, leap, w)
      && InRange(queue[i], run, w)
      && StridedOutput(queue[..i+1], leap, w) == StridedOutput(queue[..i], leap, w) + Gather(queue[i], run, w)
      && |StridedOutput(queue[..i], leap, w)| + Steps(|queue[i]|, leap) * w <= |StridedOutput(queue[..cut], leap, w)|
  {
    var upTo, data := queue[..i+1], queue[i];
    var c, k := Carry(Sizes(queue)[..i], leap), Steps(|data|, leap);
    PrefixReads(queue, cut, i + 1, leap, w);
    StridedSnoc(upTo, leap, w);
    assert upTo[..i] == queue[..i] && upTo[i] == data;
    SizesOfPrefix(queue, i);
    LastInside(upTo, leap, w);
    assert Carry(Sizes(queue)[..i+1], leap) == Pad(|data|, leap);
    hide *;
    GatherSize(data, Run(c, k, leap), w);
    RunSize(c, k, leap);
  }

  lemma RunSize(start: nat, count: nat, leap: nat)
    ensures |Run(start, count, leap)| == count
  {}

  lemma SizesOfPrefix(queue: seq<seq<byte>>, i: nat)
    requires i < |queue|
    ensures Sizes(queue)[..i] == Sizes(queue[..i]) && Sizes(queue)[..i+1] == Sizes(queue[..i+1])
    ensures Sizes(queue)[i] == |queue[i]|
  {}

  lemma LastInside(chunks: seq<seq<byte>>, leap: nat, w: nat)
    requires leap > 0 && chunks != [] && AllReadsInside(Sizes(chunks), leap, w)
    ensures var n := |chunks| - 1; ReadsInside(Carry(Sizes(chunks[..n]), leap), |chunks[n]|, leap, w)
  {
    var n := |chunks| - 1;
    SizesOfPrefix(chunks, n);
    assert ReadsInside(Carry(Sizes(chunks)[..n], leap), Sizes(chunks)[n], leap, w);
  }

  lemma PrefixReads(queue: seq<seq<byte>>, cut: nat, i: nat, leap: nat, w: nat)
    requires leap > 0 && i <= cut <= |queue| && AllReadsInside(Sizes(queue[..cut]), leap, w)
    ensures AllReadsInside(Sizes(queue[..i]), leap, w)
    ensures |StridedOutput(queue[..i], leap, w)| <= |StridedOutput(queue[..cut], leap, w)|
  {
    assert queue[..cut][..i] == queue[..i];
    hide *;
    StridedPrefix(queue[..cut], i, leap, w);
  }

  lemma StrideNone(data: seq<byte>, readOffset: nat, leap: nat, w: nat)
    requires leap > 0
    ensures InRange(data, Run(readOffset, 0, leap), w) && Gather(data, Run(readOffset, 0, leap), w) == []
    ensures 0 <= Steps(|data|, leap)
  {}

  /** One round of the inner loop: the next read is inside, there is room for it, and the output
      grows by it. */
  lemma StrideStep(data: seq<byte>, readOffset: nat, leap: nat, w: nat, k: nat)
    requires leap > 0 && ReadsInside(readOffset, |data|, leap, w) && k * leap < |data|
    requires InRange(data, Run(readOffset, k, leap), w)
    ensures k < Steps(|data|, leap) && (k + 1) * leap == k * leap + leap
    ensures var ptr := readOffset + k * leap;
      && ptr + w <= |data|
      && |Gather(data, Run(readOffset, k, leap), w)| + w <= Steps(|data|, leap) * w
      && InRange(data, Run(readOffset, k + 1, leap), w)
      && Gather(data, Run(readOffset, k + 1, leap), w) == Gather(data, Run(readOffset, k, leap), w) + data[ptr..ptr+w]
  {
    hide Steps, Run, Gather, InRange;
    var run, ptr := Run(readOffset, k, leap), readOffset + k * leap;
    MoreSteps(|data|, leap, k);
    ReadAt(readOffset, |data|, leap, w, k);
    RunSnoc(readOffset, k, leap);
    GatherSnoc(data, run, ptr, w);
    GatherSize(data, run, w);
    RoomForNext(k, Steps(|data|, leap), w);
  }

  lemma MoreSteps(n: nat, leap: nat, k: nat)
    requires leap > 0 && k * leap < n
    ensures k < Steps(n, leap) && (k + 1) * leap == k * leap + leap
  {
    StepsSpan(n, leap);
    hide Steps;
    if Steps(n, leap) <= k { MulMono(Steps(n, leap), k, leap); }
    OneMore(k, leap);
  }

  lemma ReadAt(carry: nat, n: nat, leap: nat, w: nat, k: nat)
    requires leap > 0 && ReadsInside(carry, n, leap, w) && k < Steps(n, leap)
    ensures carry + k * leap + w <= n
  {}

  lemma RunSnoc(start: nat, k: nat, leap: nat)
    ensures Run(start, k + 1, leap) == Run(start, k, leap) + [start + k * leap] && |Run(start, k, leap)| == k
  {}

  lemma AllSteps(n: nat, leap: nat, k: nat)
    requires leap > 0 && k <= Steps(n, leap) && n <= k * leap
    ensures k == Steps(n, leap) && k * leap == n + Pad(n, leap)
  {
    StepsSpan(n, leap);
    if k < Steps(n, leap) { MulStep(k, Steps(n, leap), leap); }
  }

  lemma RoomForNext(k: nat, total: nat, w: nat)
    requires k < total
    ensures k * w + w <= total * w
  {
    MulStep(k, total, w);
  }
}
