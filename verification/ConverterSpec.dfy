/** What the audio converter promises, in terms of the byte stream its buffers concatenate to. */
module ConverterSpec {
  import opened AudioProperties
  import opened Striding

  // ----- buffers and streams -----

  function Sizes(chunks: seq<seq<byte>>): (ns: seq<nat>)
    ensures |ns| == |chunks|
  {
    seq(|chunks|, i requires 0 <= i < |chunks| => |chunks[i]|)
  }

  function Flatten(chunks: seq<seq<byte>>): seq<byte> {
    if chunks == [] then [] else Flatten(chunks[..|chunks|-1]) + chunks[|chunks|-1]
  }

  lemma {:induction false} FlattenSize(chunks: seq<seq<byte>>)
    ensures |Flatten(chunks)| == Total(Sizes(chunks))
  {
    if chunks != [] {
      FlattenSize(chunks[..|chunks|-1]);
      assert Sizes(chunks)[..|chunks|-1] == Sizes(chunks[..|chunks|-1]);
    }
  }

  // ----- how much of the queue a budget takes -----

  /** k buffers are the shortest non-empty prefix reaching the budget, or everything. */
  predicate IsCut(ns: seq<nat>, budget: int, k: nat) {
    && k <= |ns|
    && (k < |ns| ==> k > 0 && Total(ns[..k]) >= budget)
    && (forall j :: 0 < j < k ==> Total(ns[..j]) < budget)
  }

  function CutFrom(ns: seq<nat>, budget: int, k: nat): (c: nat)
    requires k <= |ns| && forall j :: 0 < j < k ==> Total(ns[..j]) < budget
    ensures IsCut(ns, budget, c)
    decreases |ns| - k
  {
    if k == |ns| || (k > 0 && Total(ns[..k]) >= budget) then k else CutFrom(ns, budget, k + 1)
  }

  function Cut(ns: seq<nat>, budget: int): (k: nat)
    ensures IsCut(ns, budget, k)
  {
    CutFrom(ns, budget, 0)
  }

  /** One more buffer: the running total grows by its size, and the cut is reached as soon as the
      total meets the budget. */
  lemma CutAdvance(ns: seq<nat>, budget: int, i: nat)
    requires i < |ns| && forall j :: 0 < j <= i ==> Total(ns[..j]) < budget
    ensures i < Cut(ns, budget) && Total(ns[..i+1]) == Total(ns[..i]) + ns[i]
    ensures Total(ns[..i+1]) >= budget ==> Cut(ns, budget) == i + 1
  {
    assert ns[..i+1][..i] == ns[..i];
  }

  lemma CutUnique(ns: seq<nat>, budget: int, k: nat)
    requires IsCut(ns, budget, k)
    ensures k == Cut(ns, budget)
  {}

  lemma {:induction false} TotalMonotone(ns: seq<nat>, j: nat, k: nat)
    requires j <= k <= |ns|
    ensures Total(ns[..j]) <= Total(ns[..k])
  {
    if j < k {
      TotalMonotone(ns, j, k - 1);
      assert ns[..k][..k-1] == ns[..k-1];
    }
  }

  /** A cut overshoots its budget by less than its largest buffer. */
  lemma CutOvershoot(ns: seq<nat>, budget: int, most: nat)
    requires forall i :: 0 <= i < |ns| ==> ns[i] <= most
    ensures Total(ns[..Cut(ns, budget)]) <= (if budget > 0 then budget - 1 else 0) + most
  {
    var k := Cut(ns, budget);
    if k > 0 {
      assert ns[..k][..k-1] == ns[..k-1];
      assert k == 1 ==> ns[..0] == [];
    }
  }

  /** The whole queue is taken exactly when its last buffer is still needed. */
  lemma CutTakesAll(ns: seq<nat>, budget: int)
    requires ns != []
    ensures Cut(ns, budget) == |ns| <==> |ns| == 1 || Total(ns[..|ns|-1]) < budget
  {
    if |ns| == 1 || Total(ns[..|ns|-1]) < budget {
      forall j | 0 < j < |ns| ensures Total(ns[..j]) < budget { TotalMonotone(ns, j, |ns| - 1); }
      CutUnique(ns, budget, |ns|);
    }
  }

  /** What is taken past the budget of a pass-through stays within a capacity exactly when everything does,
      or some prefix is longer than the budget and within the capacity. */
  lemma CutFitsExactly(ns: seq<nat>, size: nat, capacity: nat)
    ensures Total(ns[..Cut(ns, size + 1)]) <= capacity
      <==> Total(ns) <= capacity || exists j :: 0 < j <= |ns| && size < Total(ns[..j]) <= capacity
  {
    hide Total;
    var k := Cut(ns, size + 1);
    assert ns[..|ns|] == ns;
    TotalMonotone(ns, k, |ns|);
    if j :| 0 < j <= |ns| && size < Total(ns[..j]) <= capacity {
      TotalMonotone(ns, k, j);
    }
  }

  // ----- gathering samples -----

  predicate InRange(d: seq<byte>, offsets: seq<nat>, w: nat) {
    forall k :: 0 <= k < |offsets| ==> offsets[k] + w <= |d|
  }

  /** w bytes of d from each offset. */
  function Gather(d: seq<byte>, offsets: seq<nat>, w: nat): seq<byte>
    requires InRange(d, offsets, w)
  {
    if offsets == [] then []
    else Gather(d, offsets[..|offsets|-1], w) + d[offsets[|offsets|-1]..offsets[|offsets|-1]+w]
  }

  lemma {:induction false} GatherSize(d: seq<byte>, offsets: seq<nat>, w: nat)
    requires InRange(d, offsets, w)
    ensures |Gather(d, offsets, w)| == |offsets| * w
  {
    if offsets != [] {
      var k := |offsets| - 1;
      GatherSize(d, offsets[..k], w);
      assert (k + 1) * w == k * w + w;
    }
  }

  lemma {:induction false} GatherJoin(d: seq<byte>, a: seq<nat>, b: seq<nat>, w: nat)
    requires InRange(d, a, w) && InRange(d, b, w)
    ensures InRange(d, a + b, w) && Gather(d, a + b, w) == Gather(d, a, w) + Gather(d, b, w)
    decreases |b|
  {
    if b == [] {
      assert a + b == a;
    } else {
      var init, last := b[..|b|-1], b[|b|-1];
      assert b == init + [last] && a + b == (a + init) + [last];
      GatherJoin(d, a, init, w);
      GatherSnoc(d, init, last, w);
      GatherSnoc(d, a + init, last, w);
      hide *;
      JoinSnoc(Gather(d, a, w), Gather(d, init, w), d[last..last+w]);
    }
  }

  lemma JoinSnoc(p: seq<byte>, q: seq<byte>, r: seq<byte>)
    ensures p + q + r == p + (q + r)
  {}

  lemma GatherSnoc(d: seq<byte>, a: seq<nat>, o: nat, w: nat)
    requires InRange(d, a, w) && o + w <= |d|
    ensures InRange(d, a + [o], w) && Gather(d, a + [o], w) == Gather(d, a, w) + d[o..o+w]
  {
    assert (a + [o])[..|a|] == a;
  }

  lemma {:induction false} GatherPrefix(d: seq<byte>, e: seq<byte>, a: seq<nat>, w: nat)
    requires InRange(d, a, w)
    ensures InRange(d + e, a, w) && Gather(d + e, a, w) == Gather(d, a, w)
  {
    if a != [] {
      GatherPrefix(d, e, a[..|a|-1], w);
    }
  }

  lemma SliceShift(p: seq<byte>, d: seq<byte>, o: nat, w: nat)
    requires o + w <= |d|
    ensures (p + d)[|p|+o..|p|+o+w] == d[o..o+w]
  {}

  lemma {:induction false} GatherMoved(p: seq<byte>, d: seq<byte>, a: seq<nat>, b: seq<nat>, w: nat)
    requires |a| == |b| && InRange(d, a, w) && forall k :: 0 <= k < |a| ==> b[k] == |p| + a[k]
    ensures InRange(p + d, b, w) && Gather(p + d, b, w) == Gather(d, a, w)
  {
    if a == [] {
      assert b == [];
    } else {
      hide Gather;
      var n := |a| - 1;
      assert a == a[..n] + [a[n]] && b == b[..n] + [b[n]];
      GatherMoved(p, d, a[..n], b[..n], w);
      SliceShift(p, d, a[n], w);
      GatherSnoc(d, a[..n], a[n], w);
      GatherSnoc(p + d, b[..n], b[n], w);
    }
  }

  lemma GatherShift(p: seq<byte>, d: seq<byte>, start: nat, count: nat, leap: nat, w: nat)
    requires InRange(d, Run(start, count, leap), w)
    ensures InRange(p + d, Run(|p| + start, count, leap), w)
    ensures Gather(p + d, Run(|p| + start, count, leap), w) == Gather(d, Run(start, count, leap), w)
  {
    hide Gather, InRange;
    GatherMoved(p, d, Run(start, count, leap), Run(|p| + start, count, leap), w);
  }

  // ----- the strided output -----

  lemma LastReads(chunks: seq<seq<byte>>, leap: nat, w: nat)
    requires leap > 0 && chunks != [] && AllReadsInside(Sizes(chunks), leap, w)
    ensures var n := |chunks| - 1;
      && Sizes(chunks)[..n] == Sizes(chunks[..n]) && Sizes(chunks)[n] == |chunks[n]|
      && AllReadsInside(Sizes(chunks[..n]), leap, w)
      && InRange(chunks[n], Run(Carry(Sizes(chunks[..n]), leap), Steps(|chunks[n]|, leap), leap), w)
  {
    var n := |chunks| - 1;
    var ns := Sizes(chunks);
    assert ns[..n] == Sizes(chunks[..n]);
    forall i | 0 <= i < n ensures ReadsInside(Carry(ns[..n][..i], leap), ns[..n][i], leap, w) {
      assert ns[..n][..i] == ns[..i];
      assert ReadsInside(Carry(ns[..i], leap), ns[i], leap, w);
    }
    assert ReadsInside(Carry(ns[..n], leap), ns[n], leap, w);
  }

  lemma {:induction false} CodeOffsetsInRange(chunks: seq<seq<byte>>, leap: nat, w: nat)
    requires leap > 0 && AllReadsInside(Sizes(chunks), leap, w)
    ensures InRange(Flatten(chunks), CodeOffsets(Sizes(chunks), leap), w)
  {
    if chunks != [] {
      var n := |chunks| - 1;
      LastReads(chunks, leap, w);
      CodeOffsetsInRange(chunks[..n], leap, w);
      FlattenSize(chunks[..n]);
      var p, a := Flatten(chunks[..n]), CodeOffsets(Sizes(chunks[..n]), leap);
      GatherPrefix(p, chunks[n], a, w);
      GatherShift(p, chunks[n], Carry(Sizes(chunks[..n]), leap), Steps(|chunks[n]|, leap), leap, w);
    }
  }

  /** What the strided loop writes for these buffers: w bytes at each offset it reads. */
  function StridedOutput(chunks: seq<seq<byte>>, leap: nat, w: nat): seq<byte>
    requires leap > 0 && AllReadsInside(Sizes(chunks), leap, w)
  {
    CodeOffsetsInRange(chunks, leap, w);
    Gather(Flatten(chunks), CodeOffsets(Sizes(chunks), leap), w)
  }

  lemma LastOffsets(chunks: seq<seq<byte>>, leap: nat)
    requires leap > 0 && chunks != []
    ensures var n := |chunks| - 1; var p := Flatten(chunks[..n]);
      && Flatten(chunks) == p + chunks[n]
      && CodeOffsets(Sizes(chunks), leap) == CodeOffsets(Sizes(chunks[..n]), leap)
           + Run(|p| + Carry(Sizes(chunks[..n]), leap), Steps(|chunks[n]|, leap), leap)
  {
    var n := |chunks| - 1;
    FlattenSize(chunks[..n]);
    assert Sizes(chunks)[..n] == Sizes(chunks[..n]) && Sizes(chunks)[n] == |chunks[n]|;
    hide Run, Steps, Carry;
  }

  /** The loop's output grows by what it reads from the next buffer alone. */
  lemma StridedSnoc(chunks: seq<seq<byte>>, leap: nat, w: nat)
    requires leap > 0 && chunks != [] && AllReadsInside(Sizes(chunks), leap, w)
    ensures var n := |chunks| - 1;
      var run := Run(Carry(Sizes(chunks[..n]), leap), Steps(|chunks[n]|, leap), leap);
      && AllReadsInside(Sizes(chunks[..n]), leap, w) && InRange(chunks[n], run, w)
      && StridedOutput(chunks, leap, w) == StridedOutput(chunks[..n], leap, w) + Gather(chunks[n], run, w)
  {
    hide Run, Steps, Carry, InRange, Gather, AllReadsInside, Sizes, Flatten, CodeOffsets;
    var n := |chunks| - 1;
    LastReads(chunks, leap, w);
    CodeOffsetsInRange(chunks[..n], leap, w);
    LastOffsets(chunks, leap);
    JoinChunk(Flatten(chunks[..n]), chunks[n], CodeOffsets(Sizes(chunks[..n]), leap),
              Carry(Sizes(chunks[..n]), leap), Steps(|chunks[n]|, leap), leap, w);
  }

  /** Prefixes of readable buffers are readable and write prefixes of the output. */
  lemma {:induction false} StridedPrefix(chunks: seq<seq<byte>>, i: nat, leap: nat, w: nat)
    requires leap > 0 && i <= |chunks| && AllReadsInside(Sizes(chunks), leap, w)
    ensures AllReadsInside(Sizes(chunks[..i]), leap, w)
    ensures |StridedOutput(chunks[..i], leap, w)| <= |StridedOutput(chunks, leap, w)|
    decreases |chunks|
  {
    if i < |chunks| {
      var init := chunks[..|chunks|-1];
      assert init[..i] == chunks[..i];
      StridedSnoc(chunks, leap, w);
      hide *;
      StridedPrefix(init, i, leap, w);
    } else {
      assert chunks[..i] == chunks;
    }
  }

  lemma JoinChunk(p: seq<byte>, d: seq<byte>, a: seq<nat>, c: nat, k: nat, leap: nat, w: nat)
    requires InRange(p, a, w) && InRange(d, Run(c, k, leap), w)
    ensures InRange(p + d, a + Run(|p| + c, k, leap), w)
    ensures Gather(p + d, a + Run(|p| + c, k, leap), w) == Gather(p, a, w) + Gather(d, Run(c, k, leap), w)
  {
    GatherPrefix(p, d, a, w);
    GatherShift(p, d, c, k, leap, w);
    GatherJoin(p + d, a, Run(|p| + c, k, leap), w);
  }

  /** Refinement of the flat form: for frame-aligned buffers with carry-safe sizes, the chunk-by-chunk
      output is w bytes at every whole leap of the concatenated stream, and no read leaves its buffer. */
  lemma StridedIsFlat(chunks: seq<seq<byte>>, frame: nat, ratio: nat, w: nat)
    requires frame > 0 && ratio > 0 && 0 < w <= frame && frame * ratio > 0
    requires FrameAligned(Sizes(chunks), frame) && CarrySafe(Sizes(chunks), frame * ratio)
    ensures AllReadsInside(Sizes(chunks), frame * ratio, w)
    ensures InRange(Flatten(chunks), FlatOffsets(|Flatten(chunks)|, frame * ratio), w)
    ensures StridedOutput(chunks, frame * ratio, w)
         == Gather(Flatten(chunks), FlatOffsets(|Flatten(chunks)|, frame * ratio), w)
  {
    SafeReadsInside(Sizes(chunks), frame, ratio, w);
    CodeIsFlatExactly(Sizes(chunks), frame * ratio);
    FlattenSize(chunks);
    CodeOffsetsInRange(chunks, frame * ratio, w);
  }

  /** With the carry also deducted from the remaining count, the output depends on the bytes alone,
      not on how they are split into frame-aligned buffers. */
  lemma FixedOutputIgnoresSplit(a: seq<seq<byte>>, b: seq<seq<byte>>, frame: nat, ratio: nat, w: nat)
    requires frame > 0 && ratio > 0 && 0 < w <= frame && frame * ratio > 0
    requires FrameAligned(Sizes(a), frame) && Flatten(a) == Flatten(b)
    ensures InRange(Flatten(a), FixedOffsets(Sizes(a), frame * ratio), w)
    ensures FixedOffsets(Sizes(b), frame * ratio) == FixedOffsets(Sizes(a), frame * ratio)
    ensures Gather(Flatten(a), FixedOffsets(Sizes(a), frame * ratio), w)
         == Gather(Flatten(b), FixedOffsets(Sizes(b), frame * ratio), w)
  {
    FlattenSize(a);
    FlattenSize(b);
    FixedIsFlat(Sizes(a), frame * ratio);
    SplitDoesNotMatter(Sizes(a), Sizes(b), frame * ratio);
    TotalAligned(Sizes(a), frame);
    AlignedReadsInside(0, Total(Sizes(a)), frame, ratio, w);
  }

  // ----- which conversion, with which strides -----

  datatype ConversionOp = NoConversion | Downmix | Downsample | DownmixAndDownsample | Unsupported

  predicate Downmixes(input: Properties, output: Properties) {
    input.format.Stereo16? && output.format.Mono16?
  }

  predicate FormatsCompatible(input: Properties, output: Properties) {
    || Downmixes(input, output)
    || input.format == output.format
    || (output.format.Mono16? && (input.format.MonoLeft16? || input.format.MonoRight16?))
  }

  /** Dividing the rates is only reached for compatible formats. */
  predicate DividesByZero(input: Properties, output: Properties) {
    FormatsCompatible(input, output) && SamplingRate(output.frequency) == 0
  }

  function OpFor(input: Properties, output: Properties): ConversionOp
    requires !DividesByZero(input, output)
  {
    var i, o := SamplingRate(input.frequency), SamplingRate(output.frequency);
    if !FormatsCompatible(input, output) || o > i || i % o != 0 then Unsupported
    else if Downmixes(input, output) then (if o < i then DownmixAndDownsample else Downmix)
    else if o < i then Downsample else NoConversion
  }

  /** What the converter does, pair by pair: the same frequency needs no striding, 48 to 24 and 32 to 16 kHz
      and 48 to 16 kHz are strided, and no other pair is supported; nor is any change of format but from
      16-bit stereo, left or right to mono. */
  lemma OperationTable(input: Properties, output: Properties)
    ensures var downmix := input.format == Stereo16 && output.format == Mono16;
      var formatsOk := downmix || input.format == output.format
        || (output.format == Mono16 && input.format in {MonoLeft16, MonoRight16});
      var pair := (input.frequency, output.frequency);
      && (DividesByZero(input, output) <==> formatsOk && output.frequency in {UnlistedFrequency, FrequencyOutOfRange})
      && (!DividesByZero(input, output) ==>
            OpFor(input, output) ==
              if !formatsOk then Unsupported
              else if input.frequency == output.frequency then (if downmix then Downmix else NoConversion)
              else if pair in {(Hz48000, Hz24000), (Hz32000, Hz16000), (Hz48000, Hz16000)}
                then (if downmix then DownmixAndDownsample else Downsample)
              else Unsupported)
  {}

  function Leap(input: Properties, output: Properties): nat
    requires SamplingRate(output.frequency) != 0
  {
    FrameSize(input.format) * SamplingRate(input.frequency) / SamplingRate(output.frequency)
  }

  function WriteLength(op: ConversionOp, input: Properties): nat {
    if op.DownmixAndDownsample? then SampleSize(input.format) else FrameSize(input.format)
  }

  function Ratio(input: Properties, output: Properties): nat
    requires SamplingRate(output.frequency) != 0
  {
    SamplingRate(input.frequency) / SamplingRate(output.frequency)
  }

  predicate Strides(op: ConversionOp) { op.Downsample? || op.DownmixAndDownsample? }

  /** One frame is kept of every two from 48 to 24 and from 32 to 16 kHz, of every three from 48 to 16 kHz. */
  lemma RatioTable(input: Properties, output: Properties)
    requires !DividesByZero(input, output) && Strides(OpFor(input, output))
    ensures SamplingRate(output.frequency) != 0
    ensures Ratio(input, output) == if input.frequency == Hz48000 && output.frequency == Hz16000 then 3 else 2
  {
    OperationTable(input, output);
  }

  /** The supported pairs write one frame, or its first sample, out of every two or three; the leap is
      that many whole frames, and the bytes written are to the leap what the data rates are. */
  lemma LeapIsWholeFrames(input: Properties, output: Properties)
    requires !DividesByZero(input, output) && Strides(OpFor(input, output)) && Leap(input, output) > 0
    ensures var leap, w := Leap(input, output), WriteLength(OpFor(input, output), input);
      && (Ratio(input, output) == 2 || Ratio(input, output) == 3)
      && leap == FrameSize(input.format) * Ratio(input, output)
      && 0 < w <= FrameSize(input.format)
      && w * DataRate(input) == leap * DataRate(output)
  {
    RateBound(input);
    RateBound(output);
    SupportedRatios(input, output);
    hide DataRate, SamplingRate;
    LeapAlgebra(FrameSize(input.format), SamplingRate(output.frequency), Ratio(input, output));
  }

  lemma LeapAlgebra(f: nat, h: nat, r: nat)
    requires h > 0
    ensures f * (h * r) / h == f * r
    ensures f * (h * r * f) == f * r * (h * f)
  {
    Reassociate(f, h, r);
    DivideExact(f * r, h);
  }

  lemma Reassociate(f: nat, h: nat, r: nat)
    ensures f * (h * r) == f * r * h
    ensures f * (h * r * f) == f * r * (h * f)
  {
    assert f * (h * r * f) == f * (h * r) * f;
  }

  lemma DivideExact(a: nat, h: nat)
    requires h > 0
    ensures a * h / h == a
  {
    var q := a * h / h;
    assert q * h <= a * h < q * h + h;
    if q < a { MulStep(q, a, h); }
    if a < q { MulStep(a, q, h); }
  }

  lemma SupportedRatios(input: Properties, output: Properties)
    requires !DividesByZero(input, output) && Strides(OpFor(input, output)) && Leap(input, output) > 0
    ensures FrameSize(input.format) > 0
    ensures Ratio(input, output) == 2 || Ratio(input, output) == 3
    ensures SamplingRate(input.frequency) == SamplingRate(output.frequency) * Ratio(input, output)
    ensures OpFor(input, output).Downsample? ==> FrameSize(output.format) == FrameSize(input.format)
  {}

  /** Without downsampling the rates agree, and a downmix halves the data rate. */
  lemma RatesAgree(input: Properties, output: Properties)
    requires !DividesByZero(input, output)
    ensures OpFor(input, output).NoConversion? ==> DataRate(output) == DataRate(input)
    ensures OpFor(input, output).Downmix? ==> input.format.Stereo16? && 2 * DataRate(output) == DataRate(input)
  {
    RateBound(input);
    RateBound(output);
  }

  // ----- what convert writes -----

  /** The buffers a conversion consumes. The fast downmix into memory takes the whole queue. */
  function Consumed(op: ConversionOp, queue: seq<seq<byte>>, size: int, memory: bool): seq<seq<byte>> {
    match op
    case NoConversion => queue[..Cut(Sizes(queue), size + 1)]
    case Downmix => if memory then queue else queue[..Cut(Sizes(queue), size)]
    case Downsample | DownmixAndDownsample => queue[..Cut(Sizes(queue), size)]
    case Unsupported => []
  }

  /** The buffer sizes for which the loops read only what they may. */
  predicate Convertible(input: Properties, output: Properties, queue: seq<seq<byte>>, size: int, memory: bool) {
    && !DividesByZero(input, output)
    && var op := OpFor(input, output);
    var sizes := Sizes(Consumed(op, queue, size, memory));
    match op
    case Downmix => FrameAligned(sizes, FrameSize(input.format))
    case Downsample | DownmixAndDownsample =>
      Leap(input, output) > 0 && AllReadsInside(sizes, Leap(input, output), WriteLength(op, input))
    case _ => true
  }

  /** When a conversion can be made: a downmix exactly when each buffer taken is whole four-byte frames; a
      strided one, for whole frames or not, exactly when the format has a frame and the overshoots of the
      buffers taken leave room for the reads; any other always. */
  lemma ConvertibleExactly(input: Properties, output: Properties, queue: seq<seq<byte>>, size: int, memory: bool)
    requires !DividesByZero(input, output)
    ensures var op := OpFor(input, output);
      var taken := if op.Downmix? && memory then queue else queue[..Cut(Sizes(queue), size)];
      Convertible(input, output, queue, size, memory) <==>
        if op.Downmix? then forall i :: 0 <= i < |taken| ==> |taken[i]| % 4 == 0
        else if op.NoConversion? || op.Unsupported? then true
        else Leap(input, output) > 0 && RoomForCarries(Sizes(taken), Leap(input, output), WriteLength(op, input))
  {
    hide Leap, WriteLength, AllReadsInside, RoomForCarries, Cut;
    FrameSizes(input.format);
    var op := OpFor(input, output);
    if Strides(op) && Leap(input, output) > 0 {
      AllReadsInsideExactly(Sizes(queue[..Cut(Sizes(queue), size)]), Leap(input, output), WriteLength(op, input));
    } else if op.Downmix? {
      var taken := if memory then queue else queue[..Cut(Sizes(queue), size)];
      assert FrameAligned(Sizes(taken), 4) <==> forall i :: 0 <= i < |taken| ==> |taken[i]| % 4 == 0 by {
        assert forall i :: 0 <= i < |taken| ==> Sizes(taken)[i] == |taken[i]|;
      }
    }
  }

  /** The budget is honoured from below too: a conversion takes a prefix of the queue, and either all of it
      or enough to meet the budget, which a pass-through has to exceed. */
  lemma ConsumedEnough(op: ConversionOp, queue: seq<seq<byte>>, size: int, memory: bool)
    requires !op.Unsupported?
    ensures var taken := Consumed(op, queue, size, memory);
      && taken <= queue
      && (taken == queue
          || |Flatten(taken)| > size
          || (!op.NoConversion? && |Flatten(taken)| == size))
  {
    var budget := if op.NoConversion? then size + 1 else size;
    var k := Cut(Sizes(queue), budget);
    FlattenSize(queue[..k]);
    assert Sizes(queue[..k]) == Sizes(queue)[..k];
    hide Flatten, Cut;
  }

  /** Sample by sample: byte b of the k-th read is byte b at the k-th offset. */
  lemma {:induction false} GatherMeans(d: seq<byte>, offsets: seq<nat>, w: nat, k: nat, b: nat)
    requires InRange(d, offsets, w) && k < |offsets| && b < w
    ensures |Gather(d, offsets, w)| == |offsets| * w && k * w + b < |offsets| * w
    ensures Gather(d, offsets, w)[k * w + b] == d[offsets[k] + b]
  {
    var n := |offsets| - 1;
    GatherSize(d, offsets, w);
    GatherSize(d, offsets[..n], w);
    MulStep(k, |offsets|, w);
    if k < n {
      MulStep(k, n, w);
      GatherMeans(d, offsets[..n], w, k, b);
    }
  }

  /** For carry-safe whole frames the strided output is, byte by byte, w bytes at every whole leap of the
      bytes of the buffers: byte `to`, the b-th of the k-th read, is byte `from`. */
  lemma StridedAt(chunks: seq<seq<byte>>, frame: nat, ratio: nat, leap: nat, w: nat, k: nat, b: nat, to: nat, from: nat)
    requires frame > 0 && ratio > 0 && 0 < w <= frame && leap == frame * ratio > 0
    requires FrameAligned(Sizes(chunks), frame) && CarrySafe(Sizes(chunks), leap)
    requires k < Steps(|Flatten(chunks)|, leap) && b < w && to == k * w + b && from == k * leap + b
    ensures AllReadsInside(Sizes(chunks), leap, w)
    ensures |StridedOutput(chunks, leap, w)| == Steps(|Flatten(chunks)|, leap) * w
    ensures to < |StridedOutput(chunks, leap, w)| && from < |Flatten(chunks)|
    ensures StridedOutput(chunks, leap, w)[to] == Flatten(chunks)[from]
  {
    hide Flatten, StridedOutput, Gather, CarrySafe, AllReadsInside, Steps, FrameAligned;
    StridedIsFlat(chunks, frame, ratio, w);
    FlatAt(|Flatten(chunks)|, leap, k);
    GatherMeans(Flatten(chunks), FlatOffsets(|Flatten(chunks)|, leap), w, k, b);
  }

  lemma FlatAt(n: nat, leap: nat, k: nat)
    requires leap > 0 && k < Steps(n, leap)
    ensures |FlatOffsets(n, leap)| == Steps(n, leap) && FlatOffsets(n, leap)[k] == k * leap
  {}

  /** Every w bytes out of each whole leap of d. */
  function Thinned(d: seq<byte>, leap: nat, w: nat): seq<byte>
    requires 0 < w <= leap && |d| % leap == 0
  {
    ThinnedInRange(|d|, leap, w);
    Gather(d, FlatOffsets(|d|, leap), w)
  }

  lemma ThinnedInRange(n: nat, leap: nat, w: nat)
    requires 0 < w <= leap && n % leap == 0
    ensures forall k :: 0 <= k < |FlatOffsets(n, leap)| ==> FlatOffsets(n, leap)[k] + w <= n
  {
    MultipleHasNoPad(n, leap);
    ReadsInsideExactly(0, n, leap, w);
    assert leap * 1 == leap;
  }

  /** Buffers of whole leaps never carry, so striding them is thinning the stream. */
  lemma AlignedStride(chunks: seq<seq<byte>>, leap: nat, w: nat)
    requires 0 < w <= leap && FrameAligned(Sizes(chunks), leap)
    ensures |Flatten(chunks)| % leap == 0 && AllReadsInside(Sizes(chunks), leap, w)
    ensures StridedOutput(chunks, leap, w) == Thinned(Flatten(chunks), leap, w)
    ensures forall i :: 0 <= i <= |chunks| ==> Carry(Sizes(chunks)[..i], leap) == 0
  {
    assert leap * 1 == leap;
    FlattenSize(chunks);
    TotalAligned(Sizes(chunks), leap);
    MultiplesAreSafe(Sizes(chunks), leap);
    StridedIsFlat(chunks, leap, 1, w);
    forall i | 0 <= i <= |chunks| ensures Carry(Sizes(chunks)[..i], leap) == 0 {
      if i > 0 { MultipleHasNoPad(Sizes(chunks)[i-1], leap); }
    }
  }

  lemma {:induction false} MultiplesAreSafe(ns: seq<nat>, leap: nat)
    requires leap > 0 && Multiples(ns, leap)
    ensures CarrySafe(ns, leap)
  {
    if ns != [] {
      var init := ns[..|ns|-1];
      MultiplesAreSafe(init, leap);
      MultipleHasNoPad(ns[|ns|-1], leap);
      if init != [] { MultipleHasNoPad(init[|init|-1], leap); }
    }
  }

  /** The bytes of a thinned stream, one by one. */
  lemma ThinnedAt(d: seq<byte>, k: nat)
    requires |d| % 4 == 0 && k < |d| / 2
    ensures |Thinned(d, 4, 2)| == |d| / 2
    ensures Thinned(d, 4, 2)[k] == d[4 * (k / 2) + k % 2]
  {
    ThinnedSize(d, 4, 2);
    ThinnedInRange(|d|, 4, 2);
    MultipleHasNoPad(|d|, 4);
    GatherAt(d, Steps(|d|, 4), k);
  }

  /** Byte by byte, the left 16-bit sample of every 16-bit stereo frame. */
  ghost predicate IsLeftHalf(clip: seq<byte>, stream: seq<byte>) {
    && |stream| % 4 == 0 && |clip| == |stream| / 2
    && forall i :: 0 <= i < |clip| ==> clip[i] == stream[4 * (i / 2) + i % 2]
  }

  lemma LeftSamplesOf(stream: seq<byte>, clip: seq<byte>)
    requires |stream| % 4 == 0 && clip == Thinned(stream, 4, 2)
    ensures IsLeftHalf(clip, stream)
  {
    ThinnedSize(stream, 4, 2);
    forall i | 0 <= i < |clip| ensures clip[i] == stream[4 * (i / 2) + i % 2] {
      ThinnedAt(stream, i);
    }
  }

  lemma {:induction false} GatherAt(d: seq<byte>, count: nat, k: nat)
    requires 4 * count <= |d| && k < 2 * count
    ensures InRange(d, Run(0, count, 4), 2)
    ensures |Gather(d, Run(0, count, 4), 2)| == 2 * count
    ensures Gather(d, Run(0, count, 4), 2)[k] == d[4 * (k / 2) + k % 2]
  {
    var run, init := Run(0, count, 4), Run(0, count - 1, 4);
    assert run[..|run|-1] == init;
    GatherSize(d, run, 2);
    GatherSize(d, init, 2);
    if k < 2 * (count - 1) {
      GatherAt(d, count - 1, k);
    }
  }

  function Converted(input: Properties, output: Properties, queue: seq<seq<byte>>, size: int, memory: bool): seq<byte>
    requires Convertible(input, output, queue, size, memory)
  {
    var op := OpFor(input, output);
    var chunks := Consumed(op, queue, size, memory);
    match op
    case NoConversion => Flatten(chunks)
    case Downmix =>
      FlattenSize(chunks); TotalAligned(Sizes(chunks), FrameSize(input.format));
      Thinned(Flatten(chunks), FrameSize(input.format), SampleSize(input.format))
    case Downsample | DownmixAndDownsample => StridedOutput(chunks, Leap(input, output), WriteLength(op, input))
    case Unsupported => []
  }

  // ----- duration and capacity -----

  predicate WholeLeaps(input: Properties, output: Properties, chunks: seq<seq<byte>>)
    requires !DividesByZero(input, output)
  {
    Strides(OpFor(input, output)) ==> Leap(input, output) > 0 && Multiples(Sizes(chunks), Leap(input, output))
  }

  /** Duration is preserved: output bytes are to the bytes consumed what the data rates are. */
  lemma DurationPreserved(input: Properties, output: Properties, queue: seq<seq<byte>>, size: int, memory: bool)
    requires Convertible(input, output, queue, size, memory)
    requires WholeLeaps(input, output, Consumed(OpFor(input, output), queue, size, memory))
    ensures var chunks := Consumed(OpFor(input, output), queue, size, memory);
      |Converted(input, output, queue, size, memory)| * DataRate(input) == |Flatten(chunks)| * DataRate(output)
  {
    var op := OpFor(input, output);
    var chunks := Consumed(op, queue, size, memory);
    if Strides(op) {
      LeapIsWholeFrames(input, output);
      StridedDuration(chunks, Leap(input, output), WriteLength(op, input), DataRate(input), DataRate(output));
    } else {
      RatesAgree(input, output);
      if op.Downmix? { DownmixDuration(chunks, DataRate(output)); }
    }
  }

  lemma DownmixDuration(chunks: seq<seq<byte>>, outRate: nat)
    requires FrameAligned(Sizes(chunks), 4)
    ensures |Flatten(chunks)| % 4 == 0
    ensures |Thinned(Flatten(chunks), 4, 2)| * (2 * outRate) == |Flatten(chunks)| * outRate
  {
    FlattenSize(chunks);
    TotalAligned(Sizes(chunks), 4);
    ThinnedSize(Flatten(chunks), 4, 2);
    hide *;
    HalfAtTwice(|Flatten(chunks)|, outRate);
  }

  lemma HalfAtTwice(size: nat, outRate: nat)
    requires size % 4 == 0
    ensures size / 4 * 2 * (2 * outRate) == size * outRate
  {
    var n := size / 4;
    assert n * 2 * (2 * outRate) == 4 * n * outRate;
  }

  lemma ThinnedSize(d: seq<byte>, leap: nat, w: nat)
    requires 0 < w <= leap && |d| % leap == 0
    ensures |Thinned(d, leap, w)| == |d| / leap * w
  {
    ThinnedInRange(|d|, leap, w);
    MultipleHasNoPad(|d|, leap);
    StepsUnique(|d|, leap, |d| / leap, 0);
    GatherSize(d, FlatOffsets(|d|, leap), w);
  }

  lemma StridedDuration(chunks: seq<seq<byte>>, leap: nat, w: nat, inRate: nat, outRate: nat)
    requires leap > 0 && AllReadsInside(Sizes(chunks), leap, w) && Multiples(Sizes(chunks), leap)
    requires w * inRate == leap * outRate
    ensures |StridedOutput(chunks, leap, w)| * inRate == |Flatten(chunks)| * outRate
  {
    var ns := Sizes(chunks);
    FlattenSize(chunks);
    CodeOffsetsInRange(chunks, leap, w);
    GatherSize(Flatten(chunks), CodeOffsets(ns, leap), w);
    CodeCount(ns, leap);
    MultiplesHaveNoPad(ns, leap);
    var k := |CodeOffsets(ns, leap)|;
    assert k * leap == |Flatten(chunks)|;
    CrossMultiply(k, w, inRate, leap, outRate);
  }

  lemma CrossMultiply(k: nat, w: nat, inRate: nat, leap: nat, outRate: nat)
    requires w * inRate == leap * outRate
    ensures k * w * inRate == k * leap * outRate
  {
    assert k * w * inRate == k * (w * inRate);
    assert k * leap * outRate == k * (leap * outRate);
  }

  /** A clip of the given length fits a sink sized for one second more, whenever no buffer is longer
      than a second and the conversion honours its budget. */
  lemma ClipFits(input: Properties, output: Properties, queue: seq<seq<byte>>, seconds: nat, memory: bool)
    requires Convertible(input, output, queue, seconds * DataRate(input), memory)
    requires WholeLeaps(input, output, Consumed(OpFor(input, output), queue, seconds * DataRate(input), memory))
    requires forall i :: 0 <= i < |queue| ==> |queue[i]| <= DataRate(input)
    requires !(OpFor(input, output).Downmix? && memory)
    ensures |Converted(input, output, queue, seconds * DataRate(input), memory)| <= (seconds + 1) * DataRate(output)
  {
    hide DataRate, Converted, Consumed, Flatten, Convertible, WholeLeaps, OpFor;
    ConvertibleDivides(input, output, queue, seconds * DataRate(input), memory);
    var size, op := seconds * DataRate(input), OpFor(input, output);
    DurationPreserved(input, output, queue, size, memory);
    RatesAgree(input, output);
    RatePositive(input, output, queue, size, memory);
    ConsumedBound(op, queue, size, memory, DataRate(input));
    OneMore(seconds, DataRate(input));
    Unconverted(input, output, queue, size, memory);
    if !op.NoConversion? && !op.Unsupported? {
      ScaleDown(|Converted(input, output, queue, size, memory)|, |Flatten(Consumed(op, queue, size, memory))|,
                seconds + 1, DataRate(input), DataRate(output));
    }
  }

  lemma ConvertibleDivides(input: Properties, output: Properties, queue: seq<seq<byte>>, size: int, memory: bool)
    requires Convertible(input, output, queue, size, memory)
    ensures !DividesByZero(input, output)
  {}

  lemma Unconverted(input: Properties, output: Properties, queue: seq<seq<byte>>, size: int, memory: bool)
    requires Convertible(input, output, queue, size, memory)
    ensures var op := OpFor(input, output);
      && (op.NoConversion? ==> Converted(input, output, queue, size, memory) == Flatten(Consumed(op, queue, size, memory)))
      && (op.Unsupported? ==> Converted(input, output, queue, size, memory) == [])
  {}

  lemma OneMore(seconds: nat, rate: nat)
    ensures (seconds + 1) * rate == seconds * rate + rate
  {}

  lemma RatePositive(input: Properties, output: Properties, queue: seq<seq<byte>>, size: int, memory: bool)
    requires Convertible(input, output, queue, size, memory)
    ensures OpFor(input, output).NoConversion? || OpFor(input, output).Unsupported? || DataRate(input) > 0
  {
    if Strides(OpFor(input, output)) { SupportedRatios(input, output); }
    RateBound(input);
    hide DataRate;
  }

  lemma ConsumedBound(op: ConversionOp, queue: seq<seq<byte>>, size: nat, memory: bool, most: nat)
    requires forall i :: 0 <= i < |queue| ==> |queue[i]| <= most
    requires !(op.Downmix? && memory)
    ensures |Flatten(Consumed(op, queue, size, memory))| <= size + most
  {
    if !op.Unsupported? {
      var budget := if op.NoConversion? then size + 1 else size;
      CutOvershoot(Sizes(queue), budget, most);
      var k := Cut(Sizes(queue), budget);
      assert Sizes(queue[..k]) == Sizes(queue)[..k];
      FlattenSize(queue[..k]);
    }
  }

  /** The fast downmix ignores the budget: its clip fits exactly when the whole queue is no longer
      than the clip and one second more. */
  lemma FastClipFitsExactly(input: Properties, output: Properties, queue: seq<seq<byte>>, size: int, seconds: nat)
    requires Convertible(input, output, queue, size, true) && OpFor(input, output).Downmix?
    ensures |Converted(input, output, queue, size, true)| <= (seconds + 1) * DataRate(output)
      <==> |Flatten(queue)| <= (seconds + 1) * DataRate(input)
  {
    RatesAgree(input, output);
    RateBound(input);
    hide DataRate;
    DurationPreserved(input, output, queue, size, true);
    HalfFits(|Converted(input, output, queue, size, true)|, |Flatten(queue)|, seconds + 1, DataRate(output));
  }

  lemma HalfFits(clip: nat, total: nat, seconds: nat, outRate: nat)
    requires outRate > 0 && clip * (2 * outRate) == total * outRate
    ensures clip <= seconds * outRate <==> total <= seconds * (2 * outRate)
  {
    assert clip * (2 * outRate) == 2 * clip * outRate;
    if 2 * clip < total { MulStep(2 * clip, total, outRate); }
    if total < 2 * clip { MulStep(total, 2 * clip, outRate); }
    assert seconds * (2 * outRate) == 2 * (seconds * outRate);
  }

  lemma ScaleDown(clip: nat, taken: nat, seconds: nat, inRate: nat, outRate: nat)
    requires inRate > 0 && clip * inRate == taken * outRate && taken <= seconds * inRate
    ensures clip <= seconds * outRate
  {
    MulMono(taken, seconds * inRate, outRate);
    assert seconds * inRate * outRate == seconds * outRate * inRate;
    if clip > seconds * outRate { MulStep(seconds * outRate, clip, inRate); }
  }

  // ----- the fast downmix against the plain one -----

  lemma {:induction false} FlattenPrefixOf(chunks: seq<seq<byte>>, k: nat)
    requires k <= |chunks|
    ensures Flatten(chunks[..k]) <= Flatten(chunks)
  {
    if k < |chunks| {
      FlattenPrefixOf(chunks[..|chunks|-1], k);
      assert chunks[..|chunks|-1][..k] == chunks[..k];
    } else {
      assert chunks[..k] == chunks;
    }
  }

  /** The unrolled downmix of the whole queue and the plain one of its budgeted part leave the same
      bytes, and so the same write offset, exactly when the part past the budget holds no bytes; a
      budget of at least the queue's size is enough. */
  lemma FastIsSlowExactly(queue: seq<seq<byte>>, size: int)
    requires FrameAligned(Sizes(queue), 4)
    ensures var part := queue[..Cut(Sizes(queue), size)];
      && |Flatten(queue)| % 4 == 0 && |Flatten(part)| % 4 == 0
      && (Thinned(Flatten(queue), 4, 2) == Thinned(Flatten(part), 4, 2) <==> |Flatten(queue)| == |Flatten(part)|)
      && (size >= |Flatten(queue)| ==> |Flatten(queue)| == |Flatten(part)|)
  {
    var ns := Sizes(queue);
    var k := Cut(ns, size);
    assert Sizes(queue[..k]) == ns[..k];
    FlattenSize(queue);
    FlattenSize(queue[..k]);
    TotalAligned(ns, 4);
    TotalAligned(ns[..k], 4);
    FlattenPrefixOf(queue, k);
    SameThinning(Flatten(queue), Flatten(queue[..k]));
    assert ns[..|ns|] == ns;
    TotalMonotone(ns, k, |ns|);
  }

  lemma SameThinning(d: seq<byte>, e: seq<byte>)
    requires |d| % 4 == 0 && |e| % 4 == 0 && e <= d
    ensures Thinned(d, 4, 2) == Thinned(e, 4, 2) <==> |d| == |e|
  {
    ThinnedSize(d, 4, 2);
    ThinnedSize(e, 4, 2);
    assert |d| == 4 * (|d| / 4) && |e| == 4 * (|e| / 4);
    if |d| == |e| { assert d == e; }
  }

  /** The tail loop of the unrolled form counts an unsigned remainder down by four and stops at zero
      only, so it ends exactly for buffers of whole frames. */
  lemma TailEndsExactly(n: nat)
    requires n < U32
    ensures (exists k: nat :: (n - 4 * k) % U32 == 0) <==> n % 4 == 0
  {
    if n % 4 == 0 {
      assert (n - 4 * (n / 4)) % U32 == 0;
    }
    forall k: nat | (n - 4 * k) % U32 == 0 ensures n % 4 == 0 {
      var q := (n - 4 * k) / U32;
      assert n == 4 * (k + q * 0x4000_0000);
    }
  }
}
