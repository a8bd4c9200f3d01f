/** Capture formats, their numeric parameters and the data rates derived from them. */
module AudioProperties {

  const U32 := 0x1_0000_0000
  const I32_LIMIT := 0x8000_0000
  const MAX_QMGR_BUFFER_DURATION_S := 30
  const MAX_CLIP_SECONDS := 120
  const MAX_DATA_RATE := 864000

  type byte = b: int | 0 <= b < 256

  /** FormatOutOfRange stands for racFormat_eMax and anything above it, UnlistedFormat
      for an enumerator below it that the parameter switch does not name. */
  datatype Format =
    | Stereo16 | Stereo24 | MonoLeft16 | MonoRight16 | Mono16 | Surround24
    | UnlistedFormat | FormatOutOfRange

  datatype Frequency =
    | Hz16000 | Hz24000 | Hz32000 | Hz44100 | Hz48000
    | UnlistedFrequency | FrequencyOutOfRange

  datatype Properties = Properties(
    format: Format, frequency: Frequency, fifoSize: nat, threshold: nat, delayCompensationMs: nat)

  function SamplingRate(f: Frequency): nat {
    match f
    case Hz16000 => 16000
    case Hz24000 => 24000
    case Hz32000 => 32000
    case Hz44100 => 44100
    case Hz48000 => 48000
    case _ => 0
  }

  function BitsPerSample(f: Format): nat {
    match f
    case Stereo16 | MonoLeft16 | MonoRight16 | Mono16 => 16
    case Stereo24 | Surround24 => 24
    case _ => 0
  }

  function Channels(f: Format): nat {
    match f
    case Stereo16 | Stereo24 => 2
    case MonoLeft16 | MonoRight16 | Mono16 => 1
    case Surround24 => 6
    case _ => 0
  }

  function SampleSize(f: Format): nat { BitsPerSample(f) / 8 }

  function FrameSize(f: Format): nat { Channels(f) * SampleSize(f) }

  /** Bytes per second, multiplied in the order the source multiplies (32-bit unsigned). */
  function DataRate(p: Properties): nat {
    BitsPerSample(p.format) * SamplingRate(p.frequency) % U32 * Channels(p.format) % U32 / 8
  }

  /** The number of buffers the incoming queue may hold before it is flushed. */
  function MaxQueueSize(p: Properties): nat
    requires p.threshold != 0
  {
    MAX_QMGR_BUFFER_DURATION_S * DataRate(p) % U32 / p.threshold % U32
  }

  predicate BadProperties(p: Properties) {
    p.format.FormatOutOfRange? || p.frequency.FrequencyOutOfRange?
  }

  lemma MulMono(a: nat, b: nat, c: nat)
    requires a <= b
    ensures a * c <= b * c && c * a <= c * b
  {}

  /** No product wraps: the data rate is whole frames per second, and every product of it
      with a clip or queue duration fits in 31 bits. */
  lemma DataRateIsExact(p: Properties, seconds: nat)
    requires seconds <= MAX_CLIP_SECONDS
    ensures DataRate(p) == SamplingRate(p.frequency) * FrameSize(p.format) <= MAX_DATA_RATE
    ensures (seconds + 1) * DataRate(p) < I32_LIMIT
    ensures MAX_QMGR_BUFFER_DURATION_S * DataRate(p) < U32
  {
    RateBound(p);
    MulMono(seconds + 1, MAX_CLIP_SECONDS + 1, DataRate(p));
  }

  lemma RateBound(p: Properties)
    ensures DataRate(p) == SamplingRate(p.frequency) * FrameSize(p.format) <= MAX_DATA_RATE
  {
    var r := SamplingRate(p.frequency);
    assert r <= 48000;
    RatesExact(r);
    FrameSizes(p.format);
    match p.format
    case Stereo16 =>
    case Stereo24 =>
    case Surround24 =>
    case MonoLeft16 | MonoRight16 | Mono16 =>
    case _ =>
  }

  /** The rates in bytes per second: 16-bit mono by frequency, every other format in proportion to its
      frame. */
  lemma RateTable(p: Properties)
    ensures var mono := match p.frequency
        case Hz16000 => 32000
        case Hz24000 => 48000
        case Hz32000 => 64000
        case Hz44100 => 88200
        case Hz48000 => 96000
        case _ => 0;
      DataRate(p) == match p.format
        case MonoLeft16 | MonoRight16 | Mono16 => mono
        case Stereo16 => 2 * mono
        case Stereo24 => 3 * mono
        case Surround24 => 9 * mono
        case _ => 0
  {
    RateBound(p);
    FrameSizes(p.format);
    hide DataRate, FrameSize;
  }

  /** Rejected are the values past the last enumerator, and only those. */
  lemma BadPropertiesExactly(p: Properties)
    ensures BadProperties(p) <==>
      || p.format !in {Stereo16, Stereo24, MonoLeft16, MonoRight16, Mono16, Surround24, UnlistedFormat}
      || p.frequency !in {Hz16000, Hz24000, Hz32000, Hz44100, Hz48000, UnlistedFrequency}
  {}

  lemma FrameSizes(f: Format)
    ensures FrameSize(f) == match f
      case Stereo16 => 4
      case Stereo24 => 6
      case Surround24 => 18
      case MonoLeft16 | MonoRight16 | Mono16 => 2
      case _ => 0
  {}

  lemma RatesExact(r: nat)
    requires r <= 48000
    ensures 16 * r % U32 * 1 % U32 / 8 == r * 2 && 16 * r % U32 * 2 % U32 / 8 == r * 4
    ensures 24 * r % U32 * 2 % U32 / 8 == r * 6 && 24 * r % U32 * 6 % U32 / 8 == r * 18
  {
    RateExact(16, 1, r);
    RateExact(16, 2, r);
    RateExact(24, 2, r);
    RateExact(24, 6, r);
  }

  lemma RateExact(bits: nat, channels: nat, r: nat)
    requires bits * r < U32 && bits * r * channels < U32
    ensures bits * r % U32 * channels % U32 == bits * r * channels
  {
    SmallMod(bits * r);
    SmallMod(bits * r * channels);
  }

  lemma QueueSizeIsExact(p: Properties)
    requires p.threshold > 0
    ensures MaxQueueSize(p) == 30 * DataRate(p) / p.threshold
  {
    RateBound(p);
    SmallQuotient(MAX_QMGR_BUFFER_DURATION_S * DataRate(p), p.threshold);
  }

  lemma SmallQuotient(n: nat, d: nat)
    requires d > 0 && n < U32
    ensures n % U32 / d % U32 == n / d
  {
    QuotientAtMost(n, d);
    SmallMod(n);
    SmallMod(n / d);
  }

  lemma QuotientAtMost(n: nat, d: nat)
    requires d > 0
    ensures n / d <= n
  {
    var q := n / d;
    assert q * d <= n;
    MulMono(1, d, q);
  }

  lemma SmallMod(n: nat)
    requires n < U32
    ensures n % U32 == n
  {}
}
