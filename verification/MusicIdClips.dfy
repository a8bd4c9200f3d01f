/** Which part of the history a grab writes. */
module MusicIdClips {
  import opened AudioProperties
  import opened Striding
  import opened ConverterSpec
  import opened MusicIdSpec
  import opened MusicIdTheorems
  import opened MusicIdPromise

  // ----- which part of the queue a clip is -----

  const MUSIC_OUTPUT := Properties(Mono16, Hz48000, 0, 0, 0)

  function Target(input: Properties, convert: bool): Properties {
    if convert then MUSIC_OUTPUT else input
  }

  /** With conversion on, a clip is audio only for 16-bit capture at 48 kHz; for everything else the
      converter refuses and the clip is empty. */
  lemma MusicConversions(input: Properties, queue: seq<seq<byte>>, size: int, memory: bool)
    ensures !DividesByZero(input, MUSIC_OUTPUT)
    ensures OpFor(input, MUSIC_OUTPUT) ==
      if !input.frequency.Hz48000? then Unsupported
      else match input.format
        case Stereo16 => Downmix
        case MonoLeft16 | MonoRight16 | Mono16 => NoConversion
        case _ => Unsupported
    ensures OpFor(input, MUSIC_OUTPUT).Unsupported? ==>
      Convertible(input, MUSIC_OUTPUT, queue, size, memory) && Converted(input, MUSIC_OUTPUT, queue, size, memory) == []
  {
    hide Consumed, Thinned, StridedOutput;
  }

  /** Without conversion a grab takes the whole queue exactly when the queue without its newest buffer
      is no longer than the clip; otherwise the newest audio is what it leaves out. */
  lemma WholeQueueExactly(queue: seq<seq<byte>>, size: nat, memory: bool)
    requires queue != []
    ensures Consumed(NoConversion, queue, size, memory) == queue
      <==> |queue| == 1 || Bytes(queue[..|queue|-1]) <= size
  {
    var n := |queue| - 1;
    CutTakesAll(Sizes(queue), size + 1);
    assert Sizes(queue)[..n] == Sizes(queue[..n]);
    hide Cut, Total;
    assert queue[..|queue|] == queue;
  }

  lemma {:induction false} EqualBytes(q: seq<seq<byte>>, z: nat)
    requires forall i :: 0 <= i < |q| ==> |q[i]| == z
    ensures Bytes(q) == |q| * z
  {
    if q == [] {
      assert Sizes(q) == [];
    } else {
      BytesHead(q);
      EqualBytes(q[1..], z);
      hide Bytes;
      assert |q| * z == z + (|q| - 1) * z;
    }
  }

  /** A queue of equal buffers just trimmed to its limit holds that limit rounded up to whole buffers. */
  lemma TrimmedLength(history: seq<seq<byte>>, m: nat, z: nat, least: nat)
    requires z > 0 && (forall i :: 0 <= i < |history| ==> |history[i]| == z) && ShortestSuffix(history, m, least)
    ensures |history| - m == Steps(least, z)
  {
    var k := |history| - m;
    EqualBytes(history[m..], z);
    if k > 0 {
      EqualBytes(history[m+1..], z);
      assert Bytes(history[m+1..]) < least;
    }
    hide Bytes, ShortestSuffix;
    assert k > 0 ==> k * z == (k - 1) * z + z;
    assert k == 0 ==> k * z == 0;
    StepsUnique(least, z, k, k * z - least);
  }

  /** With equal-sized buffers, right after a trim to n seconds a clip of n seconds is the whole queue:
      the latest n seconds received, rounded up to whole buffers. */
  lemma ClipIsLatest(input: Properties, ops: seq<Op>, op: Op, n: nat, z: nat, memory: bool)
    requires AllAllowed(ops) && Allowed(op) && (op.Tick? || op.SetPrecapture?) && z > 0
    requires var s := After(Start(input), ops); var t := Apply(s, op);
      && (forall i :: 0 <= i < |t.received| ==> |t.received[i]| == z) && Bytes(s.queue) < I32_LIMIT
      && t.limit == n * DataRate(t.input) && Bytes(t.queue) >= t.limit && !DividesByZero(t.input, t.input)
    ensures var t := Apply(After(Start(input), ops), op);
      var size, k := n * DataRate(t.input), Steps(n * DataRate(t.input), z);
      && k <= |t.received| && t.queue == t.received[|t.received|-k..]
      && OpFor(t.input, t.input) == NoConversion
      && Converted(t.input, t.input, t.queue, size, memory) == Flatten(t.received[|t.received|-k..])
  {
    hide After, Start, Apply, Bytes, HistoryInv, ModestInv, AllAllowed, ShortestSuffix;
    hide Converted, Flatten, OpFor, DataRate, Steps;
    var s := After(Start(input), ops);
    var t := Apply(s, op);
    StartIsModest(input);
    SameReceived(s, op);
    assert NonEmpty(s.received);
    HistoryRun(Start(input), ops);
    HistoryStep(s, op);
    TrimInRun(input, ops, op);
    QueueIsLatest(s, t, z);
    LatestIsWhole(t.queue, z, t.limit);
    WholeClip(t.input, t.queue, t.limit, memory);
  }

  lemma SameReceived(s: State, op: Op)
    requires op.Tick? || op.SetPrecapture?
    ensures Apply(s, op).received == s.received
  {
    hide LimitFor, Excess, DropCount, Bytes, Rest, Due, Complete;
  }

  lemma QueueIsLatest(s: State, t: State, z: nat)
    requires HistoryInv(s) && HistoryInv(t) && t.received == s.received && Bytes(t.queue) >= t.limit
    requires z > 0 && forall i :: 0 <= i < |t.received| ==> |t.received[i]| == z
    requires if Bytes(s.queue) <= t.limit then t.queue == s.queue else ShortestSuffix(t.received, |t.released|, t.limit)
    ensures |t.queue| == Steps(t.limit, z) && t.queue == t.received[|t.received| - |t.queue|..]
  {
    var m := |t.released|;
    assert t.received[m..] == t.queue && |t.received| - m == |t.queue|;
    if Bytes(s.queue) <= t.limit {
      EqualBytes(t.queue, z);
      StepsUnique(t.limit, z, |t.queue|, 0);
    } else {
      TrimmedLength(t.received, m, z, t.limit);
    }
  }

  lemma LatestIsWhole(queue: seq<seq<byte>>, z: nat, size: nat)
    requires z > 0 && |queue| == Steps(size, z) && forall i :: 0 <= i < |queue| ==> |queue[i]| == z
    ensures queue == [] || Bytes(queue[..|queue|-1]) <= size
  {
    if queue != [] {
      EqualBytes(queue[..|queue|-1], z);
      StepsSpan(size, z);
      assert |queue| * z == (|queue| - 1) * z + z;
    }
  }

  lemma WholeClip(p: Properties, queue: seq<seq<byte>>, size: nat, memory: bool)
    requires !DividesByZero(p, p) && (queue == [] || Bytes(queue[..|queue|-1]) <= size)
    ensures OpFor(p, p) == NoConversion && Convertible(p, p, queue, size, memory)
    ensures Converted(p, p, queue, size, memory) == Flatten(queue)
  {
    if queue != [] { WholeQueueExactly(queue, size, memory); }
    hide Bytes;
  }

  lemma ShortPrecapture()
    ensures Apply(Start(SLOW), SetPrecapture(1)) == Start(SLOW).(precapture := 1, limit := 32000)
  {
    WitnessRates();
    LimitIsModest(1, [], SLOW);
    assert Longest(1, []) == 1 && Bytes([]) == 0;
    hide LimitFor, Bytes, DataRate;
  }

  lemma ThreeArrive(s: State, a: seq<byte>, b: seq<byte>, c: seq<byte>)
    requires s.queue == [] && s.totalSize == 0 && |a| + |b| + |c| < U32
    ensures var t := Apply(Apply(Apply(s, Callback(a)), Callback(b)), Callback(c));
      t == s.(queue := [a, b, c], totalSize := |a| + |b| + |c|, received := s.received + [a] + [b] + [c])
  {
    assert [] + [a] + [b] + [c] == [a, b, c];
  }

  /** A tick with no request and less to lose than the oldest buffer changes nothing in the queue. */
  lemma IdleTick(s: State)
    requires s.requests == [] && s.queue != [] && Excess(s.totalSize, s.limit) < |s.queue[0]|
    ensures var t := Apply(s, Op.Tick); t.queue == s.queue && t.limit == s.limit && t.precapture == s.precapture
  {
    assert Due([]) == [];
    hide Bytes, Excess, LimitFor, Complete, Rest;
  }

  lemma CutOfThree(a: nat, b: nat, c: nat, budget: int)
    requires a < budget <= a + b
    ensures Cut([a, b, c], budget) == 2
  {
    var ns := [a, b, c];
    assert ns[..1] == [a] && [a][..0] == [] && Total([a]) == a;
    assert ns[..2] == [a, b] && [a, b][..1] == [a] && Total([a, b]) == a + b;
    CutUnique(ns, budget, 2);
  }

  /** With unequal buffers that fails even right after a trim. One second of 32000 bytes is kept, buffers
      of 25600, 9600 and 19200 bytes arrive and a tick trims: it drops nothing, and the one-second
      precapture clip then leaves the newest buffer out. */
  lemma UnequalBuffersDropNewest(a: seq<byte>, b: seq<byte>, c: seq<byte>, memory: bool)
    requires |a| == 25600 && |b| == 9600 && |c| == 19200
    ensures var t := After(Start(SLOW), [SetPrecapture(1), Callback(a), Callback(b), Callback(c), Op.Tick]);
      var size := t.precapture * DataRate(SLOW);
      && t.queue == [a, b, c] && t.limit == size == 32000
      && OpFor(SLOW, SLOW) == NoConversion && Consumed(NoConversion, t.queue, size, memory) == [a, b]
  {
    hide After, DataRate, Consumed, OpFor;
    UnequalRun(a, b, c);
    WitnessRates();
    ClipOfThree(a, b, c, memory);
  }

  lemma UnequalRun(a: seq<byte>, b: seq<byte>, c: seq<byte>)
    requires |a| == 25600 && |b| == 9600 && |c| == 19200
    ensures var t := After(Start(SLOW), [SetPrecapture(1), Callback(a), Callback(b), Callback(c), Op.Tick]);
      t.queue == [a, b, c] && t.limit == 32000 && t.precapture == 1
  {
    hide After, Apply, DataRate, Excess;
    FiveSteps(Start(SLOW), [SetPrecapture(1), Callback(a), Callback(b), Callback(c), Op.Tick]);
    ShortPrecapture();
    var s := Start(SLOW).(precapture := 1, limit := 32000);
    ThreeArrive(s, a, b, c);
    ExcessExact(54400, 32000);
    IdleTick(Apply(Apply(Apply(s, Callback(a)), Callback(b)), Callback(c)));
  }

  lemma ClipOfThree(a: seq<byte>, b: seq<byte>, c: seq<byte>, memory: bool)
    requires |a| == 25600 && |b| == 9600 && |c| == 19200
    ensures OpFor(SLOW, SLOW) == NoConversion && Consumed(NoConversion, [a, b, c], 32000, memory) == [a, b]
  {
    CutOfThree(|a|, |b|, |c|, 32001);
    assert Sizes([a, b, c]) == [|a|, |b|, |c|] && [a, b, c][..2] == [a, b];
    hide Cut;
  }
}
