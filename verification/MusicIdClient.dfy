/** The music-id client as the source writes it: fields updated in place under the client mutex. The
    ghost field `st` follows the sequential machine, so the theorems about its runs apply. */
module MusicIdClient {
  import opened AudioProperties
  import opened Striding
  import opened ConverterSpec
  import opened Converter
  import opened MusicIdSpec
  import opened MusicIdTheorems
  import opened MusicIdSchedule
  import opened MusicIdPromise
  import opened MusicIdClips

  /** One call of a request's completion callback. */
  datatype Notice = Notice(id: nat, ret: int)

  function Notices(done: seq<Completion>): seq<Notice> {
    if done == [] then [] else Notices(done[..|done|-1]) + [Notice(done[|done|-1].id, done[|done|-1].ret)]
  }

  /** The queue can be converted, and its clip fits the sink made for it. */
  predicate ClipReady(input: Properties, convert: bool, queue: seq<seq<byte>>, seconds: nat) {
    var target, size := Target(input, convert), seconds * DataRate(input);
    && Convertible(input, target, queue, size, true)
    && |Converted(input, target, queue, size, true)| <= (seconds + 1) * DataRate(target)
  }

  function ClipOf(input: Properties, convert: bool, queue: seq<seq<byte>>, seconds: nat): seq<byte>
    requires ClipReady(input, convert, queue, seconds)
  {
    Converted(input, Target(input, convert), queue, seconds * DataRate(input), true)
  }

  /** What a clip is, by setting and capture format. Unconverted, and from 16-bit mono at 48 kHz: the
      shortest non-empty prefix of the queue that exceeds the clip's length, or all of it. */
  lemma ClipUnconverted(input: Properties, convert: bool, queue: seq<seq<byte>>, seconds: nat, clip: seq<byte>)
    requires ClipReady(input, convert, queue, seconds) && clip == ClipOf(input, convert, queue, seconds)
    requires !convert || (input.frequency == Hz48000 && input.format in {MonoLeft16, MonoRight16, Mono16})
    ensures exists k: nat :: IsCut(Sizes(queue), seconds * DataRate(input) + 1, k) && clip == Flatten(queue[..k])
  {
    hide DataRate, Converted, Flatten, Convertible, OpFor, Cut;
    var size, target := seconds * DataRate(input), Target(input, convert);
    ConvertibleDivides(input, target, queue, size, true);
    OperationTable(input, target);
    Unconverted(input, target, queue, size, true);
    var k := Cut(Sizes(queue), size + 1);
    assert IsCut(Sizes(queue), size + 1, k) && clip == Flatten(queue[..k]);
  }

  /** Downmixed, from 16-bit stereo at 48 kHz: the left sample of every frame of the whole queue. */
  lemma ClipDownmixed(input: Properties, queue: seq<seq<byte>>, seconds: nat, clip: seq<byte>)
    requires ClipReady(input, true, queue, seconds) && clip == ClipOf(input, true, queue, seconds)
    requires input.frequency == Hz48000 && input.format == Stereo16
    ensures |Flatten(queue)| % 4 == 0 && |clip| == |Flatten(queue)| / 2
    ensures forall i :: 0 <= i < |clip| ==> clip[i] == Flatten(queue)[4 * (i / 2) + i % 2]
    ensures IsLeftHalf(clip, Flatten(queue))
  {
    hide DataRate, Converted, Flatten, Convertible, OpFor, Thinned;
    var size, target := seconds * DataRate(input), Target(input, true);
    ConvertibleDivides(input, target, queue, size, true);
    OperationTable(input, target);
    DownmixIsThinning(input, target, queue, size, true);
    LeftSamplesOf(Flatten(queue), clip);
  }

  /** From anything else, with conversion on: nothing. */
  lemma ClipRefused(input: Properties, queue: seq<seq<byte>>, seconds: nat)
    requires ClipReady(input, true, queue, seconds)
    requires input.frequency != Hz48000 || input.format !in {Stereo16, MonoLeft16, MonoRight16, Mono16}
    ensures ClipOf(input, true, queue, seconds) == []
  {
    hide DataRate, Converted, Convertible, OpFor;
    var size, target := seconds * DataRate(input), Target(input, true);
    ConvertibleDivides(input, target, queue, size, true);
    OperationTable(input, target);
    Unconverted(input, target, queue, size, true);
  }

  /** A clip, by setting and capture format, in terms of the queued bytes alone. */
  ghost predicate IsClip(input: Properties, convert: bool, queue: seq<seq<byte>>, seconds: nat, clip: seq<byte>) {
    if !convert || (input.frequency == Hz48000 && input.format in {MonoLeft16, MonoRight16, Mono16}) then
      exists k: nat :: IsCut(Sizes(queue), seconds * DataRate(input) + 1, k) && clip == Flatten(queue[..k])
    else if input.frequency == Hz48000 && input.format == Stereo16 then
      IsLeftHalf(clip, Flatten(queue))
    else
      clip == []
  }

  lemma ClipCases(input: Properties, convert: bool, queue: seq<seq<byte>>, seconds: nat, clip: seq<byte>)
    requires ClipReady(input, convert, queue, seconds) && clip == ClipOf(input, convert, queue, seconds)
    ensures IsClip(input, convert, queue, seconds, clip)
  {
    hide ClipReady, ClipOf, DataRate, Flatten, IsLeftHalf, IsCut;
    if !convert || (input.frequency == Hz48000 && input.format in {MonoLeft16, MonoRight16, Mono16}) {
      ClipUnconverted(input, convert, queue, seconds, clip);
    } else if input.frequency == Hz48000 && input.format == Stereo16 {
      ClipDownmixed(input, queue, seconds, clip);
    } else {
      ClipRefused(input, queue, seconds);
    }
  }

  predicate AllReady(input: Properties, convert: bool, queue: seq<seq<byte>>, due: seq<Request>) {
    queue != [] ==> forall r :: r in due ==> ClipReady(input, convert, queue, r.length)
  }

  /** The clips of the due requests, in order; an empty queue yields none. */
  function Clips(input: Properties, convert: bool, queue: seq<seq<byte>>, due: seq<Request>): seq<seq<byte>>
    requires AllReady(input, convert, queue, due)
  {
    if due == [] || queue == [] then []
    else Clips(input, convert, queue, due[..|due|-1]) + [ClipOf(input, convert, queue, due[|due|-1].length)]
  }

  /** One clip for each due request, in their order, each of its own length. */
  lemma {:induction false} ClipsMean(input: Properties, convert: bool, queue: seq<seq<byte>>, due: seq<Request>)
    requires AllReady(input, convert, queue, due) && queue != []
    ensures var clips := Clips(input, convert, queue, due);
      && |clips| == |due|
      && forall i :: 0 <= i < |due| ==>
           && ClipReady(input, convert, queue, due[i].length)
           && clips[i] == ClipOf(input, convert, queue, due[i].length)
           && IsClip(input, convert, queue, due[i].length, clips[i])
  {
    hide ClipReady, ClipOf, IsClip;
    if due != [] {
      var r := due[|due|-1];
      ClipsMean(input, convert, queue, due[..|due|-1]);
      ClipCases(input, convert, queue, r.length, ClipOf(input, convert, queue, r.length));
    }
  }

  lemma ClipsAdded(input: Properties, convert: bool, queue: seq<seq<byte>>, due: seq<Request>, sent: seq<seq<byte>>)
    requires AllReady(input, convert, queue, due)
    ensures var outbox := sent + Clips(input, convert, queue, due);
      && |outbox| == |sent| + (if queue == [] then 0 else |due|)
      && forall i :: 0 <= i < |outbox| - |sent| ==>
           IsClip(input, convert, queue, due[i].length, outbox[|sent| + i])
  {
    if queue != [] {
      hide AllReady, Clips, ClipReady, ClipOf, IsClip;
      ClipsMean(input, convert, queue, due);
    }
  }

  /** With buffers of at most a second and no conversion a tick is always safe. */
  lemma TickIsSafe(input: Properties, queue: seq<seq<byte>>, due: seq<Request>)
    requires !DividesByZero(input, input) && forall i :: 0 <= i < |queue| ==> |queue[i]| <= DataRate(input)
    ensures AllReady(input, false, queue, due)
  {
    OperationTable(input, input);
    hide ClipReady, DataRate, OpFor, DividesByZero;
    forall r | r in due ensures ClipReady(input, false, queue, r.length) {
      ReadyUnconverted(input, false, queue, r.length);
    }
  }

  /** The callbacks are one for each completion, in order. */
  lemma {:induction false} NoticesMean(done: seq<Completion>)
    ensures |Notices(done)| == |done|
    ensures forall i :: 0 <= i < |done| ==> Notices(done)[i] == Notice(done[i].id, done[i].ret)
  {
    if done != [] {
      NoticesMean(done[..|done|-1]);
    }
  }

  // ----- from the history to the outbox -----

  /** An n-second clip grabbed right after a trim to n seconds, without conversion and with equal-sized
      buffers, is the latest n seconds received, rounded up to whole buffers. `outbox` is what a grab
      leaves of `before`. */
  lemma GrabDeliversLatest(input: Properties, ops: seq<Op>, op: Op, n: nat, z: nat,
                           before: seq<seq<byte>>, outbox: seq<seq<byte>>)
    requires AllAllowed(ops) && Allowed(op) && (op.Tick? || op.SetPrecapture?) && z > 0
    requires var s := After(Start(input), ops); var t := Apply(s, op);
      && (forall i :: 0 <= i < |t.received| ==> |t.received[i]| == z) && Bytes(s.queue) < I32_LIMIT
      && t.limit == n * DataRate(t.input) && Bytes(t.queue) >= t.limit && !DividesByZero(t.input, t.input)
      && ClipReady(t.input, false, t.queue, n) && outbox == before + [ClipOf(t.input, false, t.queue, n)]
    ensures var t := Apply(After(Start(input), ops), op);
      var k := Steps(n * DataRate(t.input), z);
      k <= |t.received| && outbox == before + [Flatten(t.received[|t.received|-k..])]
  {
    hide After, Start, Apply, Bytes, DataRate, Converted, Convertible, Flatten, OpFor, Steps, DividesByZero, AllAllowed;
    ClipIsLatest(input, ops, op, n, z, true);
  }

  /** The same for a tick that follows such a trim with nothing received in between: every due request of n
      seconds is delivered the latest n seconds. `outbox` is what the tick leaves of `before`. */
  lemma TickDeliversLatest(input: Properties, ops: seq<Op>, op: Op, n: nat, z: nat,
                           before: seq<seq<byte>>, outbox: seq<seq<byte>>)
    requires AllAllowed(ops) && Allowed(op) && (op.Tick? || op.SetPrecapture?) && z > 0
    requires var s := After(Start(input), ops); var t := Apply(s, op);
      && (forall i :: 0 <= i < |t.received| ==> |t.received[i]| == z) && Bytes(s.queue) < I32_LIMIT
      && t.limit == n * DataRate(t.input) && Bytes(t.queue) >= t.limit && !DividesByZero(t.input, t.input)
      && t.queue != [] && AllReady(t.input, false, t.queue, Due(t.requests))
      && outbox == before + Clips(t.input, false, t.queue, Due(t.requests))
    ensures var t := Apply(After(Start(input), ops), op);
      var k := Steps(n * DataRate(t.input), z);
      && k <= |t.received| && |outbox| == |before| + |Due(t.requests)| && before <= outbox
      && forall i :: 0 <= i < |Due(t.requests)| && Due(t.requests)[i].length == n ==>
           outbox[|before| + i] == Flatten(t.received[|t.received|-k..])
  {
    hide After, Start, Apply, Bytes, DataRate, Converted, Convertible, Flatten, OpFor, Steps, DividesByZero;
    hide AllAllowed, AllReady, Clips, Due;
    var t := Apply(After(Start(input), ops), op);
    ClipsMean(t.input, false, t.queue, Due(t.requests));
    ClipIsLatest(input, ops, op, n, z, true);
  }

  /** A prefix of the queue is longer than the clip, by at most one second. */
  ghost predicate StopsInTime(queue: seq<seq<byte>>, seconds: nat, rate: nat) {
    exists j :: 0 < j <= |queue| && seconds * rate < Bytes(queue[..j]) <= (seconds + 1) * rate
  }

  lemma PassthroughFitsExactly(queue: seq<seq<byte>>, seconds: nat, rate: nat)
    ensures |Flatten(Consumed(NoConversion, queue, seconds * rate, true))| <= (seconds + 1) * rate
      <==> Bytes(queue) <= (seconds + 1) * rate || StopsInTime(queue, seconds, rate)
  {
    var ns, size, capacity := Sizes(queue), seconds * rate, (seconds + 1) * rate;
    var k := Cut(ns, size + 1);
    FlattenSize(queue[..k]);
    assert Sizes(queue[..k]) == ns[..k];
    CutFitsExactly(ns, size, capacity);
    assert forall j :: 0 <= j <= |queue| ==> Sizes(queue[..j]) == ns[..j];
    hide Flatten, Cut;
    if j :| 0 < j <= |ns| && size < Total(ns[..j]) <= capacity { assert size < Bytes(queue[..j]) <= capacity; }
    if j :| 0 < j <= |queue| && size < Bytes(queue[..j]) <= capacity { assert size < Total(ns[..j]) <= capacity; }
  }

  /** Without a conversion a grab takes buffers until they exceed the clip, so it is safe exactly when the
      whole queue is no longer than the clip and one second, or the buffers exceed the clip by no more
      than that second. */
  lemma ReadyUnconvertedExactly(input: Properties, convert: bool, queue: seq<seq<byte>>, seconds: nat)
    requires !DividesByZero(input, Target(input, convert)) && OpFor(input, Target(input, convert)).NoConversion?
    ensures ClipReady(input, convert, queue, seconds)
      <==> Bytes(queue) <= (seconds + 1) * DataRate(input) || StopsInTime(queue, seconds, DataRate(input))
  {
    var target, size := Target(input, convert), seconds * DataRate(input);
    RatesAgree(input, target);
    assert Convertible(input, target, queue, size, true);
    Unconverted(input, target, queue, size, true);
    hide DataRate, Converted, Convertible, Consumed, OpFor, Bytes, Flatten, StopsInTime, DividesByZero;
    PassthroughFitsExactly(queue, seconds, DataRate(input));
  }

  /** In particular, without a conversion or with one that is refused, whenever no buffer is longer than a
      second. */
  lemma ReadyUnconverted(input: Properties, convert: bool, queue: seq<seq<byte>>, seconds: nat)
    requires !DividesByZero(input, Target(input, convert))
    requires OpFor(input, Target(input, convert)).NoConversion? || OpFor(input, Target(input, convert)).Unsupported?
    requires forall i :: 0 <= i < |queue| ==> |queue[i]| <= DataRate(input)
    ensures ClipReady(input, convert, queue, seconds)
  {
    hide DataRate, Converted, Consumed, Flatten, OpFor, Bytes, StopsInTime, DividesByZero;
    var target, size := Target(input, convert), seconds * DataRate(input);
    if OpFor(input, target).NoConversion? {
      ReadyUnconvertedExactly(input, convert, queue, seconds);
      PassthroughFitsExactly(queue, seconds, DataRate(input));
      ConsumedBound(NoConversion, queue, size, true, DataRate(input));
      OneMore(seconds, DataRate(input));
    } else {
      assert Convertible(input, target, queue, size, true);
      Unconverted(input, target, queue, size, true);
    }
  }

  /** The overrun comes about: with a precapture of one second, one buffer of three seconds is too long for
      its sink. */
  lemma LongBufferDoesNotFit(a: seq<byte>)
    requires |a| == 96000
    ensures var t := After(Start(SLOW), [SetPrecapture(1)] + [Callback(a)]);
      && t.queue == [a] && t.precapture == 1 && t.input == SLOW && Allowed(SetPrecapture(1))
      && !ClipReady(SLOW, false, t.queue, t.precapture)
  {
    hide Apply, After, ClipReady, Bytes, DataRate;
    var s := Start(SLOW);
    ShortPrecapture();
    AfterSnoc(s, [SetPrecapture(1)], Callback(a));
    OneStep(s, SetPrecapture(1));
    OneArrives(s.(precapture := 1, limit := 32000), a);
    LongBufferOverruns(a);
  }

  lemma OneStep(s: State, op: Op)
    ensures After(s, [op]) == Apply(s, op)
  {
    hide Apply;
    assert [op][1..] == [] && After(Apply(s, op), []) == Apply(s, op);
  }

  lemma OneArrives(s: State, a: seq<byte>)
    ensures var t := Apply(s, Callback(a));
      t.queue == s.queue + [a] && t.precapture == s.precapture && t.input == s.input
  {}

  lemma LongBufferOverruns(a: seq<byte>)
    requires |a| == 96000
    ensures !ClipReady(SLOW, false, [a], 1)
  {
    WitnessRates();
    BytesOne(a);
    assert OpFor(SLOW, SLOW).NoConversion? && !DividesByZero(SLOW, SLOW);
    hide ClipReady, Bytes, DataRate, OpFor;
    assert forall j :: 0 < j <= |[a]| ==> [a][..j] == [a];
    ReadyUnconvertedExactly(SLOW, false, [a], 1);
  }

  /** A downmix takes the whole queue, so a grab is safe exactly when the queue is whole frames and no
      longer than the clip and one second: a queue kept for a longer request is too long for a shorter. */
  lemma ReadyDownmixExactly(input: Properties, queue: seq<seq<byte>>, seconds: nat)
    requires !DividesByZero(input, MUSIC_OUTPUT) && OpFor(input, MUSIC_OUTPUT).Downmix?
    ensures ClipReady(input, true, queue, seconds)
      <==> FrameAligned(Sizes(queue), 4) && |Flatten(queue)| <= (seconds + 1) * DataRate(input)
  {
    var size := seconds * DataRate(input);
    assert FrameSize(input.format) == 4;
    assert Convertible(input, MUSIC_OUTPUT, queue, size, true) <==> FrameAligned(Sizes(queue), 4);
    hide DataRate, Converted, Convertible, Flatten, FrameAligned, Sizes, OpFor, DividesByZero;
    if Convertible(input, MUSIC_OUTPUT, queue, size, true) {
      FastClipFitsExactly(input, MUSIC_OUTPUT, queue, size, seconds);
    }
  }

  function Calls(data: seq<seq<byte>>): seq<Op> {
    seq(|data|, i requires 0 <= i < |data| => Callback(data[i]))
  }

  lemma {:induction false} CallsArrive(s: State, data: seq<seq<byte>>)
    requires s.totalSize == Bytes(s.queue) % U32
    ensures var t := After(s, Calls(data));
      t == s.(queue := s.queue + data, received := s.received + data, totalSize := Bytes(s.queue + data) % U32)
    decreases |data|
  {
    if data == [] {
      assert Calls(data) == [] && s.queue + data == s.queue && s.received + data == s.received;
    } else {
      var init, last := data[..|data|-1], data[|data|-1];
      assert Calls(data) == Calls(init) + [Callback(last)] && init + [last] == data;
      CallsArrive(s, init);
      AfterSnoc(s, Calls(init), Callback(last));
      BytesJoin(s.queue + init, [last]);
      BytesOne(last);
      ModPlus(Bytes(s.queue + init), |last|);
      assert s.queue + init + [last] == s.queue + data && s.received + init + [last] == s.received + data;
    }
  }

  lemma MinuteRequested()
    ensures Apply(Start(FAST), Fresh(60))
      == State([], 0, 6, 11520000, [Request(0, 60, 60)], 1, FAST, [], [], 0, [Issue(0, 60, 0)], [])
  {
    var rs := [Request(0, 60, 60)];
    WitnessRates();
    hide DataRate;
    LimitIsModest(6, rs, FAST);
    assert [] + rs == rs && Lengths(rs) == [60] && [60][..0] == [] && Longest(6, []) == 6;
    assert [] + [Issue(0, 60, 0)] == [Issue(0, 60, 0)];
    hide LimitFor, Lengths;
  }

  lemma TickWithinLimit(s: State)
    requires s.totalSize < s.limit < I32_LIMIT && Due(s.requests) == []
    ensures var t := Apply(s, Op.Tick);
      t.queue == s.queue && t.requests == Rest(s.requests) && t.precapture == s.precapture && t.input == s.input
  {
    assert Excess(s.totalSize, s.limit) < 0;
    hide Bytes, Excess, LimitFor, Complete, Rest, Due;
  }

  /** Such a queue comes about: while a sample of 60 seconds is pending, eight buffers of one second of
      16-bit stereo at 48 kHz are kept across a tick, and no longer fit the clip of a 6-second grab. */
  lemma ShortGrabDoesNotFit(data: seq<seq<byte>>)
    requires |data| == 8 && forall i :: 0 <= i < |data| ==> |data[i]| == 192000
    ensures var t := After(Start(FAST), [Fresh(60)] + Calls(data) + [Op.Tick]);
      && t.requests == [Request(0, 60, 59)] && t.queue == data && t.precapture == 6 && t.input == FAST
      && !ClipReady(FAST, true, t.queue, t.precapture) && ClipReady(FAST, true, t.queue, 60)
  {
    var r, s := [Request(0, 60, 60)], Apply(Start(FAST), Fresh(60));
    MinuteRequested();
    EqualBytes(data, 192000);
    assert [] + data == data && Bytes([]) == 0;
    assert r[..0] == [] && Due([]) == [] && Rest([]) == [] && Due(r) == [] && Rest(r) == [Request(0, 60, 59)];
    hide Apply, Start, Bytes, Due, Rest;
    CallsArrive(s, data);
    AfterSnoc(Start(FAST), [Fresh(60)] + Calls(data), Op.Tick);
    assert ([Fresh(60)] + Calls(data))[1..] == Calls(data) && ([Fresh(60)] + Calls(data))[0] == Fresh(60);
    assert After(Start(FAST), [Fresh(60)] + Calls(data)) == After(s, Calls(data));
    hide After;
    TickWithinLimit(s.(queue := data, received := data, totalSize := 1536000));
    EightSeconds(data);
  }

  lemma EightSeconds(data: seq<seq<byte>>)
    requires |data| == 8 && forall i :: 0 <= i < |data| ==> |data[i]| == 192000
    ensures !ClipReady(FAST, true, data, 6) && ClipReady(FAST, true, data, 60)
  {
    EqualBytes(data, 192000);
    FlattenSize(data);
    WitnessRates();
    assert Bytes(data) == |Flatten(data)|;
    assert FrameAligned(Sizes(data), 4);
    hide Bytes, Flatten, DataRate, FrameAligned, ClipReady, Sizes;
    MusicConversions(FAST, data, 0, true);
    ReadyDownmixExactly(FAST, data, 6);
    ReadyDownmixExactly(FAST, data, 60);
  }

  // ----- runs behind a client object -----

  ghost predicate InRun(s: State) {
    exists input: Properties, ops: seq<Op> :: AllAllowed(ops) && After(Start(input), ops) == s
  }

  lemma RunFacts(s: State)
    requires InRun(s)
    ensures HistoryInv(s) && ModestInv(s) && Tallies(s.queue, s.totalSize)
  {
    var input: Properties, ops: seq<Op> :| AllAllowed(ops) && After(Start(input), ops) == s;
    StartIsModest(input);
    HistoryRun(Start(input), ops);
    ModestRun(Start(input), ops);
  }

  lemma RunGrows(s: State, op: Op)
    requires InRun(s) && Allowed(op)
    ensures InRun(Apply(s, op))
  {
    var input: Properties, ops: seq<Op> :| AllAllowed(ops) && After(Start(input), ops) == s;
    AfterSnoc(Start(input), ops, op);
    assert AllAllowed(ops + [op]);
  }

  lemma RunBegins(input: Properties)
    ensures InRun(Start(input))
  {
    assert AllAllowed([]) && After(Start(input), []) == Start(input);
  }

  /** The running total is the queue's size, up to wrap-around. */
  ghost predicate Tallies(q: seq<seq<byte>>, total: nat) {
    total == Bytes(q) % U32
  }

  function SecondsInBytes(seconds: nat, input: Properties): nat { seconds * DataRate(input) % U32 }

  /** For supported durations that is the duration times the data rate. */
  lemma SecondsInBytesExact(seconds: nat, input: Properties)
    requires seconds <= 120
    ensures SecondsInBytes(seconds, input) == seconds * DataRate(input)
  {
    RateBound(input);
    hide DataRate;
    SmallProduct(seconds, DataRate(input));
  }

  /** Limits computed for supported durations stay far below 2^31. */
  lemma SmallLimits(s: State, seconds: nat)
    requires ModestInv(s) && seconds <= MAX_CLIP_SECONDS
    ensures s.limit < I32_LIMIT
    ensures LimitFor(seconds, s.requests, s.input) < I32_LIMIT
    ensures LimitFor(s.precapture, Rest(s.requests), s.input) < I32_LIMIT
  {
    RestAndDue(s.requests);
    LimitIsModest(seconds, s.requests, s.input);
    LimitIsModest(s.precapture, Rest(s.requests), s.input);
  }

  lemma NoticesSnoc(done: seq<Completion>, due: seq<Request>, r: Request, tick: nat, queue: seq<seq<byte>>, heard: nat)
    ensures Complete(due + [r], tick, queue, heard)
      == Complete(due, tick, queue, heard) + [Completion(r.id, r.length, tick, if queue == [] then -1 else 0, queue, heard)]
    ensures Notices(done + Complete(due + [r], tick, queue, heard))
      == Notices(done + Complete(due, tick, queue, heard)) + [Notice(r.id, if queue == [] then -1 else 0)]
  {
    assert (due + [r])[..|due|] == due;
    var a, z := Complete(due, tick, queue, heard), Complete(due + [r], tick, queue, heard);
    assert (done + z)[..|done + z|-1] == done + a;
  }

  class MusicIdClient {
    const convertOutput: bool
    var input: Properties                // what the manager captures at the moment
    var queue: seq<seq<byte>>
    var totalSize: nat
    var precaptureSeconds: nat
    var precaptureBytes: nat
    var limitBytes: nat
    var requests: seq<Request>
    var requestCounter: nat
    var outbox: seq<seq<byte>>           // finished clips waiting for a connection
    var returned: seq<seq<byte>>         // the release_buffer calls made
    var notices: seq<Notice>             // the callbacks made
    ghost var st: State

    ghost predicate Shows(s: State)
      reads this
    {
      && s.queue == queue && s.totalSize == totalSize && s.limit == limitBytes
      && s.precapture == precaptureSeconds && s.requests == requests && s.counter == requestCounter
      && s.input == input && s.released == returned && Notices(s.done) == notices
    }

    ghost predicate Valid()
      reads this
    {
      Shows(st) && InRun(st)
    }

    constructor (input: Properties, convertOutput: bool)
      ensures Valid() && st == Start(input) && outbox == [] && this.convertOutput == convertOutput
      ensures precaptureBytes == 6 * DataRate(input)
    {
      this.input, this.convertOutput := input, convertOutput;
      queue, totalSize, requests, requestCounter, outbox, returned, notices := [], 0, [], 0, [], [], [];
      precaptureSeconds := DEFAULT_PRECAPTURE_SECONDS;
      precaptureBytes := DEFAULT_PRECAPTURE_SECONDS * DataRate(input);
      limitBytes := DEFAULT_PRECAPTURE_SECONDS * DataRate(input);
      st := Start(input);
      LimitIsModest(DEFAULT_PRECAPTURE_SECONDS, [], input);
      RunBegins(input);
    }

    method DataCallback(buffer: seq<byte>) returns (ret: int)
      requires Valid()
      modifies this`queue, this`totalSize, this`st
      ensures Valid() && st == Apply(old(st), Callback(buffer)) && ret == 0
    {
      RunGrows(st, Callback(buffer));
      queue := queue + [buffer];
      totalSize := (totalSize + |buffer|) % U32;
      st := Apply(st, Callback(buffer));
      ret := 0;
    }

    /** Pops whole buffers from the front while the signed excess covers them. */
    method TrimQueue(ghost s: State)
      requires Shows(s) && Tallies(queue, totalSize) && limitBytes < I32_LIMIT
      modifies this`queue, this`totalSize, this`returned
      ensures Shows(TrimStep(s))
    {
      hide Bytes, Excess, Notices;
      var excess := Excess(totalSize, limitBytes);
      ghost var q, e, t, j := queue, excess, totalSize, 0;
      ExcessInQueue(q, t, limitBytes);
      BytesNone(q);
      while 0 < excess
        invariant j <= |q| && queue == q[j..] && returned == s.released + q[..j]
        invariant excess == e - Bytes(q[..j]) && totalSize == (t - Bytes(q[..j])) % U32
        invariant DropCount(q, e) == j + DropCount(queue, excess)
        invariant excess <= Bytes(queue)
        decreases |queue|
      {
        BytesNone(queue);
        var currentBufferSize := |queue[0]|;
        if excess >= currentBufferSize {
          PopFront(q, j, t);
          excess := excess - currentBufferSize;
          totalSize := (totalSize - currentBufferSize) % U32;
          returned := returned + [queue[0]];
          queue := queue[1..];
          j := j + 1;
        } else {
          break;
        }
      }
      assert j == DropCount(q, e);
    }

    method ComputeQueueSize()
      modifies this`limitBytes
      ensures limitBytes == LimitFor(precaptureSeconds, requests, input)
    {
      var maxLength, i := precaptureSeconds, 0;
      ghost var lengths := Lengths(requests);
      while i < |requests|
        invariant i <= |requests| && maxLength == Longest(precaptureSeconds, lengths[..i])
      {
        assert lengths[..i+1][..i] == lengths[..i];
        if maxLength < requests[i].length {
          maxLength := requests[i].length;
        }
        i := i + 1;
      }
      assert lengths[..i] == lengths;
      limitBytes := maxLength * DataRate(input) % U32;
    }

    method SetPrecaptureDuration(seconds: nat) returns (ret: int)
      requires Valid() && seconds <= MAX_CLIP_SECONDS
      modifies this
      ensures Valid() && st == Apply(old(st), SetPrecapture(seconds)) && ret == 0
      ensures precaptureBytes == SecondsInBytes(seconds, input) && outbox == old(outbox)
    {
      hide Apply, TrimStep, Tallies, SecondsInBytes, InRun, HistoryInv, ModestInv;
      hide Excess, DropCount, Bytes, LimitFor, Notices;
      ghost var s := st;
      RunFacts(s);
      RunGrows(s, SetPrecapture(seconds));
      SmallLimits(s, seconds);
      TrimsLast(s, seconds);
      precaptureSeconds := seconds;
      precaptureBytes := SecondsInBytes(seconds, input);
      if limitBytes < precaptureBytes {
        limitBytes := precaptureBytes;
      }
      ComputeQueueSize();
      TrimQueue(Resized(s, seconds));
      st := Apply(s, SetPrecapture(seconds));
      ret := 0;
    }

    /** managerResult is what q_mgr::set_audio_properties answered. */
    method SetAudioProperties(p: Properties, managerResult: int) returns (ret: int)
      requires Valid()
      modifies this`input, this`precaptureBytes, this`st
      ensures Valid() && ret == managerResult
      ensures st == if ret == 0 then Apply(old(st), SetProperties(p)) else old(st)
      ensures input == if ret == 0 then p else old(input)
      ensures precaptureBytes == if ret == 0 then SecondsInBytes(precaptureSeconds, p) else old(precaptureBytes)
    {
      ret := managerResult;
      if ret == 0 {
        RunGrows(st, SetProperties(p));
        input := p;
        precaptureBytes := SecondsInBytes(precaptureSeconds, input);
        st := Apply(st, SetProperties(p));
      }
    }

    /** The manager's properties were changed through another client: the rate is new, the byte count of
        the precapture is not. */
    method ManagerChanged(p: Properties)
      requires Valid()
      modifies this`input, this`st
      ensures Valid() && st == Apply(old(st), SetProperties(p)) && input == p
    {
      RunGrows(st, SetProperties(p));
      input := p;
      st := Apply(st, SetProperties(p));
    }

    /** Queues a request; what it returns is never the request's id. */
    method GrabFreshSample(seconds: nat) returns (id: int)
      requires Valid() && seconds <= MAX_CLIP_SECONDS
      modifies this`requests, this`requestCounter, this`limitBytes, this`st
      ensures Valid() && st == Apply(old(st), Fresh(seconds)) && id == -1
      ensures requests == old(requests) + [Request(old(requestCounter), seconds, seconds)]
    {
      ghost var s := st;
      RunGrows(s, Fresh(seconds));
      id := -1;
      requests := requests + [Request(requestCounter, seconds, seconds)];
      requestCounter := requestCounter + 1;
      ComputeQueueSize();
      st := Apply(s, Fresh(seconds));
    }

    /** Socket mode: converts the queue, oldest buffer first, into a sink for one second more and puts
        the clip into the outbox. Whether the conversion succeeded is not looked at. */
    method GrabLastNSeconds(seconds: nat) returns (ret: int)
      requires queue != [] ==> ClipReady(input, convertOutput, queue, seconds)
      modifies this`outbox
      ensures ret == if queue == [] then -1 else 0
      ensures outbox == if queue == [] then old(outbox) else old(outbox) + [ClipOf(input, convertOutput, queue, seconds)]
      ensures queue != [] ==> IsClip(input, convertOutput, queue, seconds, outbox[|old(outbox)|])
    {
      hide IsClip;
      ret := 0;
      var dumpSize := seconds * DataRate(input);
      if |queue| != 0 {
        var target := Target(input, convertOutput);
        var sink := new MemorySink(DataRate(target) * (seconds + 1));
        var converter := new AudioConverter(input, target, ToMemory(sink));
        ghost var clip := ClipOf(input, convertOutput, queue, seconds);
        ClipCases(input, convertOutput, queue, seconds, clip);
        hide Converted, Convertible, DataRate, OpFor;
        var _ := converter.Convert(queue, dumpSize);
        assert ToMemory(sink).Written() == [] + clip == clip;
        outbox := outbox + [sink.buffer[..sink.writeOffset]];
      } else {
        ret := -1;
      }
    }

    method GrabPrecapturedSample() returns (ret: int)
      requires Valid() && (queue != [] ==> ClipReady(input, convertOutput, queue, precaptureSeconds))
      modifies this`outbox
      ensures Valid() && ret == if queue == [] then -1 else 0
      ensures outbox == if queue == [] then old(outbox)
        else old(outbox) + [ClipOf(input, convertOutput, queue, precaptureSeconds)]
      ensures queue != [] ==> IsClip(input, convertOutput, queue, precaptureSeconds, outbox[|old(outbox)|])
    {
      hide ClipReady, ClipOf, IsClip, InRun;
      ret := GrabLastNSeconds(precaptureSeconds);
    }

    /** A connection gets the oldest finished clip, if there is one. */
    method SendClip() returns (sent: bool, clip: seq<byte>)
      modifies this`outbox
      ensures sent <==> old(outbox) != []
      ensures if sent then old(outbox) == [clip] + outbox else outbox == [] && clip == []
    {
      if |outbox| != 0 {
        sent, clip := true, outbox[0];
        outbox := outbox[1..];
      } else {
        sent, clip := false, [];
      }
    }

    /** One round of the worker thread: the list is shortened while it is being walked. */
    method Tick()
      requires Valid() && AllReady(input, convertOutput, queue, Due(requests))
      modifies this
      ensures Valid() && st == Apply(old(st), Op.Tick)
      ensures outbox == old(outbox) + Clips(input, convertOutput, old(queue), Due(old(requests)))
      ensures |outbox| == |old(outbox)| + (if old(queue) == [] then 0 else |Due(old(requests))|)
      ensures forall i :: 0 <= i < |outbox| - |old(outbox)| ==>
        IsClip(input, convertOutput, old(queue), Due(old(requests))[i].length, outbox[|old(outbox)| + i])
      ensures precaptureBytes == old(precaptureBytes)
    {
      hide Apply, TrimStep, Tallies, ClipReady, ClipOf, IsClip, AllReady, InRun, HistoryInv, ModestInv;
      hide Excess, DropCount, Bytes, LimitFor, Notices, Rest, Due, Complete, Clips;
      ghost var s := st;
      RunFacts(s);
      RunGrows(s, Op.Tick);
      SmallLimits(s, 0);
      TrimsLast(s, 0);
      ClipsAdded(input, convertOutput, queue, Due(requests), outbox);
      ServeRequests();
      TrimQueue(Counted(s));
      st := Apply(s, Op.Tick);
    }

    method ServeRequests()
      requires Shows(st) && AllReady(input, convertOutput, queue, Due(requests))
      modifies this`requests, this`limitBytes, this`outbox, this`notices
      ensures requests == Rest(old(requests))
      ensures limitBytes == if Due(old(requests)) == [] then old(limitBytes) else LimitFor(precaptureSeconds, requests, input)
      ensures outbox == old(outbox) + Clips(input, convertOutput, queue, Due(old(requests)))
      ensures notices == Notices(st.done + Complete(Due(old(requests)), st.ticks + 1, queue, |st.received|))
    {
      hide AllReady, Notices, Rest, Due, Complete, Clips, LimitFor, ClipReady, ClipOf;
      ghost var rs, k: nat := requests, 0;
      NothingServed(rs, st.done, st.ticks + 1, queue, |st.received|, input, convertOutput);
      var i: nat := 0;
      while i < |requests|
        invariant Walked(rs, k, i, old(limitBytes), old(outbox))
        decreases |rs| - k
      {
        i := ServeNext(i, rs, k, old(limitBytes), old(outbox));
        k := k + 1;
      }
      assert rs[..k] == rs && rs[k..] == [];
    }

    /** The walk over the request list rs stands at its k-th element, which is the i-th of what is left. */
    ghost predicate Walked(rs: seq<Request>, k: nat, i: nat, limit: nat, sent: seq<seq<byte>>)
      reads this
    {
      && k <= |rs| && i == |Rest(rs[..k])| && requests == Rest(rs[..k]) + rs[k..]
      && limitBytes == (if Due(rs[..k]) == [] then limit else LimitFor(precaptureSeconds, requests, input))
      && AllReady(input, convertOutput, queue, Due(rs[..k]))
      && outbox == sent + Clips(input, convertOutput, queue, Due(rs[..k]))
      && notices == Notices(st.done + Complete(Due(rs[..k]), st.ticks + 1, queue, |st.received|))
    }

    /** One request: counted down and stepped over, or served and erased. */
    method ServeNext(i: nat, ghost rs: seq<Request>, ghost k: nat, ghost limit: nat, ghost sent: seq<seq<byte>>)
      returns (next: nat)
      requires Walked(rs, k, i, limit, sent) && i < |requests| && AllReady(input, convertOutput, queue, Due(rs))
      modifies this`requests, this`limitBytes, this`outbox, this`notices
      ensures k < |rs| && Walked(rs, k + 1, next, limit, sent)
    {
      hide AllReady, Notices, Rest, Due, Complete, Clips, LimitFor, ClipReady, ClipOf;
      var request := requests[i];
      assert k < |rs| && request == rs[k];
      NextRequest(rs, k);
      var counted := request.(remaining := if request.remaining == 0 then U32 - 1 else request.remaining - 1);
      Splice(Rest(rs[..k]), rs, k, counted);
      requests := requests[i := counted];
      if request.remaining == 0 {
        ServeRequest(i, rs, k, limit, sent);
        next := i;
      } else {
        SameLimit(Rest(rs[..k]), rs[k..], precaptureSeconds, input);
        next := i + 1;
      }
    }

    /** The request at i is due: its clip is grabbed, its callback made and it is erased. */
    method ServeRequest(i: nat, ghost rs: seq<Request>, ghost k: nat, ghost limit: nat, ghost sent: seq<seq<byte>>)
      requires k < |rs| && rs[k].remaining == 0 && i == |Rest(rs[..k])|
      requires requests == Rest(rs[..k]) + [rs[k].(remaining := U32 - 1)] + rs[k+1..]
      requires AllReady(input, convertOutput, queue, Due(rs)) && AllReady(input, convertOutput, queue, Due(rs[..k]))
      requires outbox == sent + Clips(input, convertOutput, queue, Due(rs[..k]))
      requires notices == Notices(st.done + Complete(Due(rs[..k]), st.ticks + 1, queue, |st.received|))
      modifies this`requests, this`limitBytes, this`outbox, this`notices
      ensures Walked(rs, k + 1, i, limit, sent)
    {
      hide AllReady, Notices, Rest, Due, Complete, Clips, LimitFor, ClipReady, ClipOf;
      NextRequest(rs, k);
      DueIsReady(rs, k, input, convertOutput, queue);
      ClipsSnoc(Due(rs[..k]), rs[k], input, convertOutput, queue);
      NoticesSnoc(st.done, Due(rs[..k]), rs[k], st.ticks + 1, queue, |st.received|);
      var request := requests[i];
      var ret := GrabLastNSeconds(request.length);
      notices := notices + [Notice(request.id, ret)];
      EraseAt(Rest(rs[..k]), [request], rs[k+1..]);
      requests := requests[..i] + requests[i+1..];
      ComputeQueueSize();
    }
  }

  lemma EraseAt(walked: seq<Request>, x: seq<Request>, rest: seq<Request>)
    requires |x| == 1
    ensures var q, i := walked + x + rest, |walked|; q[..i] + q[i+1..] == walked + rest
  {}

  /** Replacing or erasing the element a list walk has reached. */
  lemma Splice(walked: seq<Request>, rs: seq<Request>, k: nat, x: Request)
    requires k < |rs|
    ensures var q, i := walked + rs[k..], |walked|;
      && rs[k..][0] == rs[k] && rs[k..][1..] == rs[k+1..]
      && q[i := x] == walked + [x] + rs[k+1..] && q[i := x][..i] + q[i := x][i+1..] == walked + rs[k+1..]
  {}

  lemma NothingServed(rs: seq<Request>, done: seq<Completion>, tick: nat, queue: seq<seq<byte>>, heard: nat,
                      input: Properties, convert: bool)
    ensures Rest(rs[..0]) == [] && Due(rs[..0]) == [] && [] + rs[0..] == rs
    ensures AllReady(input, convert, queue, []) && Clips(input, convert, queue, []) == []
    ensures done + Complete([], tick, queue, heard) == done
  {}

  lemma NextRequest(rs: seq<Request>, k: nat)
    requires k < |rs|
    ensures var r := rs[k];
      if r.remaining == 0 then Rest(rs[..k+1]) == Rest(rs[..k]) && Due(rs[..k+1]) == Due(rs[..k]) + [r]
      else Rest(rs[..k+1]) == Rest(rs[..k]) + [r.(remaining := r.remaining - 1)] && Due(rs[..k+1]) == Due(rs[..k])
  {
    Snoc(rs[..k], rs[k]);
    assert rs[..k+1] == rs[..k] + [rs[k]];
  }

  lemma {:induction false} DueGrows(rs: seq<Request>, k: nat)
    requires k <= |rs|
    ensures forall r :: r in Due(rs[..k]) ==> r in Due(rs)
    decreases |rs| - k
  {
    if k < |rs| {
      NextRequest(rs, k);
      DueGrows(rs, k + 1);
    } else {
      assert rs[..k] == rs;
    }
  }

  lemma DueIsReady(rs: seq<Request>, k: nat, input: Properties, convert: bool, queue: seq<seq<byte>>)
    requires k < |rs| && rs[k].remaining == 0 && AllReady(input, convert, queue, Due(rs))
    ensures AllReady(input, convert, queue, Due(rs[..k+1]))
    ensures queue != [] ==> ClipReady(input, convert, queue, rs[k].length)
  {
    DueGrows(rs, k + 1);
    NextRequest(rs, k);
    assert rs[k] in Due(rs[..k+1]);
  }

  lemma ClipsSnoc(due: seq<Request>, r: Request, input: Properties, convert: bool, queue: seq<seq<byte>>)
    requires AllReady(input, convert, queue, due + [r])
    ensures AllReady(input, convert, queue, due) && (queue != [] ==> ClipReady(input, convert, queue, r.length))
    ensures Clips(input, convert, queue, due + [r])
      == if queue == [] then Clips(input, convert, queue, due)
         else Clips(input, convert, queue, due) + [ClipOf(input, convert, queue, r.length)]
  {
    assert r in due + [r];
    assert (due + [r])[..|due|] == due;
  }

  /** Counting a request down does not change the limit. */
  lemma SameLimit(before: seq<Request>, rest: seq<Request>, precapture: nat, input: Properties)
    requires rest != [] && rest[0].remaining > 0
    ensures LimitFor(precapture, before + rest, input)
      == LimitFor(precapture, before + [rest[0].(remaining := rest[0].remaining - 1)] + rest[1..], input)
  {
    assert Lengths(before + rest) == Lengths(before + [rest[0].(remaining := rest[0].remaining - 1)] + rest[1..]);
  }

  /** The signed excess never asks for more than the queue holds, as long as the limit is below 2^31. */
  lemma ExcessInQueue(q: seq<seq<byte>>, total: nat, limit: nat)
    requires total == Bytes(q) % U32 && limit < I32_LIMIT
    ensures Excess(total, limit) <= Bytes(q)
  {}

  lemma BytesNone(q: seq<seq<byte>>)
    ensures q[..0] == [] && Bytes(q[..0]) == 0 && (q == [] ==> Bytes(q) == 0)
  {}

  lemma PopFront(q: seq<seq<byte>>, j: nat, t: nat)
    requires j < |q|
    ensures Bytes(q[..j+1]) == Bytes(q[..j]) + |q[j]| && Bytes(q[j..]) == |q[j]| + Bytes(q[j+1..])
    ensures ((t - Bytes(q[..j])) % U32 - |q[j]|) % U32 == (t - Bytes(q[..j+1])) % U32
    ensures q[..j+1] == q[..j] + [q[j]] && q[j..][1..] == q[j+1..] && q[j..][0] == q[j]
  {
    assert q[..j+1] == q[..j] + [q[j]];
    BytesJoin(q[..j], [q[j]]);
    BytesOne(q[j]);
    BytesHead(q[j..]);
    assert q[j..][1..] == q[j+1..];
    hide Bytes;
    SubtractTwice(t - Bytes(q[..j]), |q[j]|);
  }

  lemma SubtractTwice(a: int, b: nat)
    ensures (a % U32 - b) % U32 == (a - b) % U32
  {
    var m := a / U32;
    assert a == m * U32 + a % U32;
    assert a - b == (a % U32 - b) + m * U32;
  }
}
