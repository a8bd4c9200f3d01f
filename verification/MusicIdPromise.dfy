/** What a pending request may count on: the queue still holds what was received since it was made, or
    its whole length. When the code keeps that promise, and when a property change breaks it. */
module MusicIdPromise {
  import opened AudioProperties
  import opened Striding
  import opened MusicIdSpec
  import opened MusicIdTheorems
  import opened MusicIdSchedule

  function Least(a: nat, b: nat): nat { if a < b then a else b }

  /** What a request made after `start` buffers may count on once `heard` have been received. */
  function Promised(history: seq<seq<byte>>, start: nat, heard: nat, need: nat): nat
    requires start <= heard <= |history|
  {
    Least(Bytes(history[start..heard]), need)
  }

  /** The promise to one request, at the data rate in force. */
  ghost predicate KeptFor(s: State, r: Request) {
    && r.id < |s.issued| && s.issued[r.id].length == r.length && s.issued[r.id].start <= |s.received|
    && Bytes(s.queue) >= Promised(s.received, s.issued[r.id].start, |s.received|, r.length * DataRate(s.input))
  }

  /** The promise to every pending request. */
  ghost predicate Kept(s: State) {
    forall r :: r in s.requests ==> KeptFor(s, r)
  }

  /** No pending request is longer, at the data rate in force, than the present limit. */
  predicate Fits(s: State) {
    forall r :: r in s.requests ==> r.length * DataRate(s.input) <= s.limit
  }

  /** The next tick serves a request, and so computes the limit anew before it trims. */
  predicate SomeDue(s: State) { Due(s.requests) != [] }

  lemma DueSnoc(rs: seq<Request>, r: Request)
    ensures Due(rs + [r]) == Due(rs) + (if r.remaining == 0 then [r] else [])
  {
    assert (rs + [r])[..|rs|] == rs;
  }

  lemma {:induction false} DueMeans(rs: seq<Request>)
    ensures Due(rs) != [] <==> exists r :: r in rs && r.remaining == 0
  {
    if rs == [] {
      assert Due(rs) == [];
    } else {
      hide Due;
      var init, last := rs[..|rs|-1], rs[|rs|-1];
      assert rs == init + [last];
      DueMeans(init);
      DueSnoc(init, last);
      assert forall r :: r in rs <==> r in init || r == last;
    }
  }

  // ----- what keeps the promise -----

  lemma HistoryGrows(history: seq<seq<byte>>, data: seq<byte>, start: nat, need: nat)
    requires start <= |history|
    ensures Promised(history + [data], start, |history| + 1, need) <= Promised(history, start, |history|, need) + |data|
    ensures Promised(history + [data], start, |history| + 1, need) <= need
  {
    var n := |history|;
    assert (history + [data])[start..n+1] == history[start..n] + [data];
    BytesJoin(history[start..n], [data]);
    BytesOne(data);
  }

  lemma CallbackKeeps(s: State, data: seq<byte>)
    requires Kept(s)
    ensures Kept(Apply(s, Callback(data)))
  {
    var t := Apply(s, Callback(data));
    BytesJoin(s.queue, [data]);
    BytesOne(data);
    hide Bytes, Promised, DataRate;
    forall r | r in t.requests ensures KeptFor(t, r) {
      assert KeptFor(s, r);
      HistoryGrows(s.received, data, s.issued[r.id].start, r.length * DataRate(s.input));
    }
  }

  /** A trim to a limit every pending request fits keeps the promise. */
  lemma TrimKeeps(s: State)
    requires HistoryInv(s) && s.limit < I32_LIMIT && Kept(s) && Fits(s)
    ensures Kept(TrimStep(s)) && Fits(TrimStep(s))
  {
    var t := TrimStep(s);
    TrimKeepsHistory(s);
    TrimLeavesLimit(s);
    assert t.requests == s.requests && t.issued == s.issued && t.input == s.input && t.limit == s.limit;
    hide TrimStep, Bytes, DataRate;
    forall r | r in t.requests ensures KeptFor(t, r) {
      assert KeptFor(s, r);
    }
  }

  /** Recomputing the limit makes every pending request fit. */
  lemma RecomputedFits(s: State)
    requires ModestInv(s) && s.limit == LimitFor(s.precapture, s.requests, s.input)
    ensures Fits(s) && s.limit == Longest(s.precapture, Lengths(s.requests)) * DataRate(s.input) < I32_LIMIT
  {
    LimitIsModest(s.precapture, s.requests, s.input);
    hide LimitFor, Longest, Lengths, DataRate;
  }

  /** Only the request list, the limit and the completions differ, and no request is new. */
  lemma SamePromises(s: State, m: State)
    requires m.queue == s.queue && m.received == s.received && m.issued == s.issued && m.input == s.input && Kept(s)
    requires forall r :: r in m.requests ==> exists q :: q in s.requests && q.id == r.id && q.length == r.length
    ensures Kept(m)
  {
    hide Bytes, DataRate, Promised;
    forall r | r in m.requests ensures KeptFor(m, r) {
      var q :| q in s.requests && q.id == r.id && q.length == r.length;
      assert KeptFor(s, q);
    }
  }

  function Resized(s: State, n: nat): State {
    s.(precapture := n, limit := LimitFor(n, s.requests, s.input))
  }

  /** The state with requests counted down and served, before the trim that ends a tick. */
  function Counted(s: State): State {
    s.(requests := Rest(s.requests), limit := TickLimit(s),
       done := s.done + Complete(Due(s.requests), s.ticks + 1, s.queue, |s.received|), ticks := s.ticks + 1)
  }

  lemma TrimsLast(s: State, n: nat)
    ensures Apply(s, Op.Tick) == TrimStep(Counted(s)) && Apply(s, SetPrecapture(n)) == TrimStep(Resized(s, n))
  {
    hide TrimStep, LimitFor, Rest, Due, Complete;
  }

  /** What the promise needs from a state to outlast the next operations. */
  ghost predicate Guarded(s: State) {
    && HistoryInv(s) && ModestInv(s) && s.counter == |s.issued|
    && Kept(s) && (Fits(s) || SomeDue(s))
  }

  lemma PrecaptureKeeps(s: State, n: nat)
    requires HistoryInv(s) && ModestInv(s) && Kept(s) && n <= MAX_CLIP_SECONDS
    ensures Kept(Apply(s, SetPrecapture(n))) && Fits(Apply(s, SetPrecapture(n)))
  {
    hide Bytes, DataRate, LimitFor, TrimStep, Kept, Fits, Apply;
    var m := Resized(s, n);
    ModestStep(s, SetPrecapture(n));
    LimitIsModest(n, s.requests, s.input);
    RecomputedFits(m);
    SamePromises(s, m);
    TrimKeeps(m);
    TrimsLast(s, n);
  }

  lemma FreshKeeps(s: State, n: nat)
    requires HistoryInv(s) && ModestInv(s) && s.counter == |s.issued| && Kept(s) && n <= MAX_CLIP_SECONDS
    ensures Kept(Apply(s, Fresh(n))) && Fits(Apply(s, Fresh(n)))
  {
    var t := Apply(s, Fresh(n));
    ModestStep(s, Fresh(n));
    RecomputedFits(t);
    assert t.received[|s.received|..|s.received|] == [] && Bytes([]) == 0;
    hide Bytes, DataRate, LimitFor;
    forall r | r in t.requests ensures KeptFor(t, r) {
      if r in s.requests { assert KeptFor(s, r); }
    }
  }

  /** The requests left after a tick were there before it. */
  lemma RestWasListed(rs: seq<Request>)
    ensures forall r :: r in Rest(rs) ==> exists q :: q in rs && q.id == r.id && q.length == r.length
  {
    RestAndDue(rs);
    forall r | r in Rest(rs) ensures exists q :: q in rs && q.id == r.id && q.length == r.length {
      assert r.(remaining := r.remaining + 1) in rs;
    }
  }

  /** With nothing due the limit stays; otherwise it is computed anew. Either way the rest fits it. */
  lemma CountedFits(s: State)
    requires ModestInv(s) && (Fits(s) || SomeDue(s))
    ensures Fits(Counted(s)) && Counted(s).limit < I32_LIMIT
  {
    RestWasListed(s.requests);
    RestAndDue(s.requests);
    LimitIsModest(s.precapture, Rest(s.requests), s.input);
    hide LimitFor, DataRate, Rest, Due, Complete;
  }

  lemma TickKeeps(s: State)
    requires Guarded(s)
    ensures Kept(Apply(s, Op.Tick)) && Fits(Apply(s, Op.Tick))
  {
    CountedFits(s);
    RestWasListed(s.requests);
    hide Rest, Due, Complete, LimitFor, DataRate, Bytes, TrimStep, Apply, Kept, Fits;
    SamePromises(s, Counted(s));
    assert HistoryInv(Counted(s));
    TrimKeeps(Counted(s));
    TrimsLast(s, 0);
  }

  /** A change to a rate that is not higher asks for no more than before. */
  lemma LoweringKeeps(s: State, p: Properties)
    requires Kept(s) && DataRate(p) <= DataRate(s.input)
    ensures Kept(Apply(s, SetProperties(p))) && (Fits(s) ==> Fits(Apply(s, SetProperties(p))))
  {
    hide DataRate, Bytes;
    var t := Apply(s, SetProperties(p));
    forall r | r in t.requests
      ensures KeptFor(t, r) && r.length * DataRate(p) <= r.length * DataRate(s.input)
    {
      assert KeptFor(s, r);
      MulMono(DataRate(p), DataRate(s.input), r.length);
    }
  }

  lemma CounterStep(s: State, op: Op)
    requires s.counter == |s.issued|
    ensures Apply(s, op).counter == |Apply(s, op).issued|
  {
    hide LimitFor, Rest, Due, Complete, Bytes, Excess, DropCount;
  }

  lemma GuardedStep(s: State, op: Op)
    requires Guarded(s) && Allowed(op)
    requires op.SetProperties? ==> DataRate(op.p) <= DataRate(s.input)
    ensures Guarded(Apply(s, op))
  {
    hide HistoryInv, ModestInv, Kept, Fits, Apply;
    HistoryStep(s, op);
    ModestStep(s, op);
    CounterStep(s, op);
    match op
    case Callback(data) =>
      CallbackKeeps(s, data);
      CallbackFits(s, data);
    case SetPrecapture(n) => PrecaptureKeeps(s, n);
    case Fresh(n) => FreshKeeps(s, n);
    case Tick => TickKeeps(s);
    case SetProperties(p) =>
      LoweringKeeps(s, p);
      ChangeKeepsRequests(s, p);
  }

  lemma CallbackFits(s: State, data: seq<byte>)
    ensures var t := Apply(s, Callback(data)); t.requests == s.requests && (Fits(s) ==> Fits(t))
  {}

  lemma ChangeKeepsRequests(s: State, p: Properties)
    ensures Apply(s, SetProperties(p)).requests == s.requests
  {}

  // ----- runs whose property changes never raise the rate -----

  /** The properties in force after the operations. */
  function InputAfter(input: Properties, ops: seq<Op>): Properties {
    if ops == [] then input
    else match ops[|ops|-1]
      case SetProperties(p) => p
      case _ => InputAfter(input, ops[..|ops|-1])
  }

  /** No property change raises the data rate in force. */
  ghost predicate NeverRaises(input: Properties, ops: seq<Op>) {
    ops == [] ||
    var init, op := ops[..|ops|-1], ops[|ops|-1];
    NeverRaises(input, init) && (op.SetProperties? ==> DataRate(op.p) <= DataRate(InputAfter(input, init)))
  }

  /** No property change changes the data rate. */
  ghost predicate KeepsRate(input: Properties, ops: seq<Op>) {
    forall i :: 0 <= i < |ops| && ops[i].SetProperties? ==> DataRate(ops[i].p) == DataRate(input)
  }

  lemma {:induction false} SameRate(input: Properties, ops: seq<Op>)
    requires KeepsRate(input, ops)
    ensures NeverRaises(input, ops) && DataRate(InputAfter(input, ops)) == DataRate(input)
  {
    hide DataRate;
    if ops != [] {
      SameRate(input, ops[..|ops|-1]);
    }
  }

  lemma InputStep(s: State, op: Op)
    ensures Apply(s, op).input == if op.SetProperties? then op.p else s.input
  {
    hide LimitFor, Bytes, Excess, DropCount, Complete, Rest, Due;
  }

  /** The precapture length last asked for; six seconds before any is. */
  function PrecaptureAfter(ops: seq<Op>): nat {
    if ops == [] then 6
    else match ops[|ops|-1]
      case SetPrecapture(n) => n
      case _ => PrecaptureAfter(ops[..|ops|-1])
  }

  lemma PrecaptureStep(s: State, op: Op)
    ensures Apply(s, op).precapture == if op.SetPrecapture? then op.seconds else s.precapture
  {
    hide LimitFor, Bytes, Excess, DropCount, Complete, Rest, Due;
  }

  /** Over every run, whatever it does to the rate, the settings in force are those last asked for. */
  lemma {:induction false} SettingsInForce(input: Properties, ops: seq<Op>)
    ensures var s := After(Start(input), ops); s.precapture == PrecaptureAfter(ops) && s.input == InputAfter(input, ops)
  {
    if ops == [] {
      RunOfNothing(Start(input));
    } else {
      var init, op := ops[..|ops|-1], ops[|ops|-1];
      hide Apply, Start, After;
      SettingsInForce(input, init);
      AfterSnoc(Start(input), init, op);
      assert init + [op] == ops;
      InputStep(After(Start(input), init), op);
      PrecaptureStep(After(Start(input), init), op);
    }
  }

  // ----- exactly when the promise outlasts a stale limit -----

  /** Whatever is captured, asked for, served and set from here on, as long as the rate is not raised, every
      pending request finds what it was promised. */
  ghost predicate Survives(s: State) {
    forall more :: AllAllowed(more) && NeverRaises(s.input, more) ==> Kept(After(s, more))
  }

  lemma {:induction false} GuardedRun(s: State, more: seq<Op>)
    requires Guarded(s) && AllAllowed(more) && NeverRaises(s.input, more)
    ensures Guarded(After(s, more)) && After(s, more).input == InputAfter(s.input, more)
  {
    hide Guarded, Apply, After, DataRate;
    if more == [] {
      RunOfNothing(s);
    } else {
      var init, op := more[..|more|-1], more[|more|-1];
      GuardedRun(s, init);
      AfterSnoc(s, init, op);
      assert init + [op] == more;
      GuardedStep(After(s, init), op);
      InputStep(After(s, init), op);
    }
  }

  lemma RunOfNothing(s: State)
    ensures After(s, []) == s
  {}

  lemma {:induction false} RestHas(rs: seq<Request>, r: Request)
    requires r in rs && r.remaining > 0
    ensures r.(remaining := r.remaining - 1) in Rest(rs)
  {
    var init, last := rs[..|rs|-1], rs[|rs|-1];
    assert rs == init + [last];
    if r in init { RestHas(init, r); }
  }

  /** With one byte more than what precedes it to lose, a trim loses all of that and the byte. */
  lemma {:induction false} DropAll(q: seq<seq<byte>>, x: seq<byte>, y: seq<byte>)
    requires |x| == 1
    ensures DropCount(q + [x, y], Bytes(q) + 1) == |q| + 1
    decreases |q|
  {
    var all := q + [x, y];
    if q == [] {
      assert all == [x, y] && all[1..] == [y] && Bytes(q) == 0;
      assert DropCount([y], 0) == 0;
    } else {
      BytesHead(q);
      assert all[0] == q[0] && all[1..] == q[1..] + [x, y];
      hide Bytes;
      DropAll(q[1..], x, y);
    }
  }

  function Zeros(n: nat): seq<byte> { seq(n, _ => 0) }

  /** One byte, then as many as the limit, then a tick. */
  function Break(limit: nat): seq<Op> { [Callback(Zeros(1)), Callback(Zeros(limit)), Op.Tick] }

  lemma ThreeSteps(s: State, ops: seq<Op>)
    requires |ops| == 3
    ensures After(s, ops) == Apply(Apply(Apply(s, ops[0]), ops[1]), ops[2])
  {
    hide Apply;
    assert ops[1..][1..] == ops[2..] && ops[2..][1..] == [];
    assert After(s, ops) == After(Apply(s, ops[0]), ops[1..]);
    assert After(Apply(s, ops[0]), ops[1..]) == After(Apply(Apply(s, ops[0]), ops[1]), ops[2..]);
    assert After(Apply(Apply(s, ops[0]), ops[1]), ops[2..]) == Apply(Apply(Apply(s, ops[0]), ops[1]), ops[2]);
  }

  lemma TwoCalls(s: State, x: seq<byte>, y: seq<byte>)
    requires HistoryInv(s)
    ensures var u := Apply(Apply(s, Callback(x)), Callback(y));
      && u.queue == s.queue + [x, y] && u.received == s.received + [x, y]
      && u.totalSize == (Bytes(s.queue) + |x| + |y|) % U32
      && u.requests == s.requests && u.limit == s.limit && u.issued == s.issued && u.input == s.input
  {
    assert s.queue + [x] + [y] == s.queue + [x, y] && s.received + [x] + [y] == s.received + [x, y];
    ModPlus(Bytes(s.queue), |x|);
    ModPlus(Bytes(s.queue) + |x|, |y|);
    hide Bytes;
  }

  /** A tick that serves nobody trims to the limit it found. */
  lemma QuietTick(u: State, k: nat)
    requires !SomeDue(u) && DropCount(u.queue, Excess(u.totalSize, u.limit)) == k
    ensures var t := Apply(u, Op.Tick);
      && t.queue == u.queue[k..] && t.requests == Rest(u.requests)
      && t.received == u.received && t.issued == u.issued && t.input == u.input
  {
    hide DropCount, Excess, Bytes, Due, Rest, Complete, LimitFor, Apply;
    TrimsLast(u, 0);
  }

  lemma OverByOne(total: nat, limit: nat)
    requires total < I32_LIMIT - 1 && limit < I32_LIMIT
    ensures Excess((total + 1 + limit) % U32, limit) == total + 1
  {}

  lemma BrokenQueue(s: State)
    requires HistoryInv(s) && ModestInv(s) && !SomeDue(s) && Bytes(s.queue) < I32_LIMIT - 1
    ensures var t := After(s, Break(s.limit));
      && t.queue == [Zeros(s.limit)] && t.received == s.received + [Zeros(1), Zeros(s.limit)]
      && t.issued == s.issued && t.input == s.input && t.requests == Rest(s.requests)
  {
    hide After, Apply, HistoryInv, Bytes, Excess, DropCount, Due, Rest;
    var x, y := Zeros(1), Zeros(s.limit);
    var u := Apply(Apply(s, Callback(x)), Callback(y));
    ThreeSteps(s, Break(s.limit));
    TwoCalls(s, x, y);
    OverByOne(Bytes(s.queue), s.limit);
    DropAll(s.queue, x, y);
    QuietTick(u, |s.queue| + 1);
    assert (s.queue + [x, y])[|s.queue|+1..] == [y];
  }

  lemma MorePromised(received: seq<seq<byte>>, start: nat, limit: nat, need: nat)
    requires start <= |received| && need > limit
    ensures Bytes([Zeros(limit)]) == limit
    ensures Promised(received + [Zeros(1), Zeros(limit)], start, |received| + 2, need) > limit
  {
    var x, y := Zeros(1), Zeros(limit);
    BytesOne(x);
    BytesOne(y);
    BytesJoin([x], [y]);
    BytesJoin(received[start..], [x, y]);
    hide Bytes;
    assert [x] + [y] == [x, y];
    assert (received + [x, y])[start..|received|+2] == received[start..] + [x, y];
  }

  /** With nothing due, a pending request longer than the limit loses audio to the next tick. */
  lemma StaleTickBreaks(s: State, r: Request)
    requires HistoryInv(s) && ModestInv(s) && !SomeDue(s) && Bytes(s.queue) < I32_LIMIT - 1
    requires r in s.requests && KeptFor(s, r) && r.length * DataRate(s.input) > s.limit
    ensures !Kept(After(s, Break(s.limit)))
  {
    hide After, HistoryInv, ModestInv, Bytes, Promised, DataRate, Rest, Due, Zeros;
    var t := After(s, Break(s.limit));
    BrokenQueue(s);
    DueMeans(s.requests);
    RestHas(s.requests, r);
    MorePromised(s.received, s.issued[r.id].start, s.limit, r.length * DataRate(s.input));
    assert !KeptFor(t, r.(remaining := r.remaining - 1));
  }

  /** Every listed request is one that was issued, and what it started from has been received. */
  ghost predicate Listed(s: State) {
    && s.counter == |s.issued|
    && forall r :: r in s.requests ==>
         r.id < |s.issued| && s.issued[r.id].length == r.length && s.issued[r.id].start <= |s.received|
  }

  lemma {:induction false} StartsHeard(ops: seq<Op>)
    ensures forall k :: 0 <= k < |Issues(ops)| ==> Issues(ops)[k].start <= |Heard(ops)|
  {
    if ops != [] {
      StartsHeard(ops[..|ops|-1]);
    }
  }

  lemma LogFields(input: Properties, ops: seq<Op>)
    ensures After(Start(input), ops).received == Heard(ops) && After(Start(input), ops).issued == Issues(ops)
    ensures After(Start(input), ops).ticks == TicksIn(ops)
  {
    LogSnoc(input, ops);
    hide After, Heard, Issues, TicksIn, ScheduleInv, Start;
  }

  /** What holds after every run, whatever the properties did. */
  lemma ReachedFacts(input: Properties, ops: seq<Op>)
    requires AllAllowed(ops)
    ensures var s := After(Start(input), ops); HistoryInv(s) && ModestInv(s) && Listed(s)
  {
    hide After, Start, HistoryInv, ModestInv, Issues, Heard, TicksIn, WaitingAt, ServedBy, Services;
    StartIsModest(input);
    ModestRun(Start(input), ops);
    HistoryRun(Start(input), ops);
    LogSnoc(input, ops);
    StartsHeard(ops);
    WaitingMeans(Issues(ops), TicksIn(ops));
  }

  /** The condition is enough, however much is queued. */
  lemma PromiseSurvives(s: State)
    requires Guarded(s)
    ensures Survives(s)
  {
    forall more | AllAllowed(more) && NeverRaises(s.input, more) ensures Kept(After(s, more)) {
      GuardedRun(s, more);
    }
  }

  lemma SurvivesNow(s: State)
    requires Survives(s)
    ensures Kept(s)
  {
    assert After(s, []) == s && AllAllowed([]) && NeverRaises(s.input, []);
  }

  /** It is also needed: otherwise the next tick can break the promise. */
  lemma UnfitBreaks(s: State)
    requires HistoryInv(s) && ModestInv(s) && Kept(s) && !Fits(s) && !SomeDue(s) && Bytes(s.queue) < I32_LIMIT - 1
    ensures !Survives(s)
  {
    hide HistoryInv, ModestInv, Kept, Bytes, KeptFor;
    var r :| r in s.requests && r.length * DataRate(s.input) > s.limit;
    KeptIsForEach(s, r);
    StaleTickBreaks(s, r);
    SameRate(s.input, Break(s.limit));
    assert AllAllowed(Break(s.limit)) && NeverRaises(s.input, Break(s.limit));
  }

  lemma KeptIsForEach(s: State, r: Request)
    requires Kept(s) && r in s.requests
    ensures KeptFor(s, r)
  {}

  /** In the state any run has reached, property changes included, the promise to the pending requests
      outlasts everything that does not raise the rate if and only if it holds now and each of
      them fits the present limit, or one of them is due and makes the next tick compute the limit anew. */
  lemma PromiseSurvivesExactly(input: Properties, ops: seq<Op>)
    requires AllAllowed(ops)
    ensures var s := After(Start(input), ops);
      && (Kept(s) && (Fits(s) || SomeDue(s)) ==> Survives(s))
      && (Bytes(s.queue) < I32_LIMIT - 1 ==> (Survives(s) <==> Kept(s) && (Fits(s) || SomeDue(s))))
  {
    ReachedFacts(input, ops);
    hide After, Start, HistoryInv, ModestInv, Kept, Fits, SomeDue, Survives, Bytes;
    var s := After(Start(input), ops);
    if Kept(s) && (Fits(s) || SomeDue(s)) { PromiseSurvives(s); }
    if Survives(s) { SurvivesNow(s); }
    if Bytes(s.queue) < I32_LIMIT - 1 && Kept(s) && !Fits(s) && !SomeDue(s) { UnfitBreaks(s); }
  }

  /** At the rate of p, no pending request is longer than the present limit. */
  predicate FitsAt(s: State, p: Properties) {
    forall r :: r in s.requests ==> r.length * DataRate(p) <= s.limit
  }

  /** The same for a property change: the requests pending across a change to p keep finding what they
      were promised, at the new rate, if and only if they find it at that moment, and at the new rate
      each is at most the limit computed before the change, or one is due at the next tick. A change
      that does not raise the rate is always safe for a promise that was. */
  lemma ChangeSurvivesExactly(input: Properties, ops: seq<Op>, p: Properties)
    requires AllAllowed(ops)
    ensures var s := After(Start(input), ops); var t := Apply(s, SetProperties(p));
      var safe := Kept(t) && (FitsAt(s, p) || exists r :: r in s.requests && r.remaining == 0);
      && (safe ==> Survives(t))
      && (Bytes(s.queue) < I32_LIMIT - 1 ==>
            && (Survives(t) <==> safe)
            && (DataRate(p) <= DataRate(s.input) && Survives(s) ==> Survives(t)))
  {
    var s := After(Start(input), ops);
    var t := Apply(s, SetProperties(p));
    AfterSnoc(Start(input), ops, SetProperties(p));
    PromiseSurvivesExactly(input, ops);
    PromiseSurvivesExactly(input, ops + [SetProperties(p)]);
    DueMeans(s.requests);
    hide After, Start, Bytes, DataRate, Due, Survives, Kept;
    if DataRate(p) <= DataRate(s.input) && Kept(s) { LoweringKeeps(s, p); }
  }

  /** The longest of the precapture and the pending requests, in bytes at the rate in force. */
  function Wanted(s: State): nat { Longest(s.precapture, Lengths(s.requests)) * DataRate(s.input) }

  /** The limit only ever falls behind what is wanted by a change that raises the rate, and is exactly
      what is wanted until the rate changes. */
  lemma WantedStep(s: State, op: Op)
    requires ModestInv(s) && Allowed(op) && s.limit >= Wanted(s)
    requires op.SetProperties? ==> DataRate(op.p) <= DataRate(s.input)
    ensures var t := Apply(s, op);
      && t.limit >= Wanted(t)
      && (s.limit == Wanted(s) && DataRate(t.input) == DataRate(s.input) ==> t.limit == Wanted(t))
  {
    hide DataRate, Longest, Bytes, Excess, DropCount, Complete;
    match op
    case Callback(_) =>
    case SetPrecapture(n) => LimitIsModest(n, s.requests, s.input);
    case Fresh(n) => LimitIsModest(s.precapture, s.requests + [Request(s.counter, n, n)], s.input);
    case Tick =>
      RestAndDue(s.requests);
      LimitIsModest(s.precapture, Rest(s.requests), s.input);
      if !SomeDue(s) { NoneDue(s.requests); }
    case SetProperties(p) => MulMono(DataRate(p), DataRate(s.input), Longest(s.precapture, Lengths(s.requests)));
  }

  lemma StartWants(input: Properties)
    ensures var s := Start(input); Guarded(s) && s.limit == Wanted(s)
  {
    StartIsModest(input);
    LimitIsModest(DEFAULT_PRECAPTURE_SECONDS, [], input);
    hide DataRate, LimitFor;
  }

  lemma {:induction false} NeverRaisesRun(input: Properties, ops: seq<Op>)
    requires AllAllowed(ops) && NeverRaises(input, ops)
    ensures var s := After(Start(input), ops);
      Guarded(s) && s.limit >= Wanted(s) && s.input == InputAfter(input, ops)
  {
    hide Guarded, Wanted, Apply, Start, After, DataRate;
    if ops == [] {
      StartWants(input);
      RunOfNothing(Start(input));
      StartInput(input);
    } else {
      var init, op := ops[..|ops|-1], ops[|ops|-1];
      var s := After(Start(input), init);
      NeverRaisesRun(input, init);
      AfterSnoc(Start(input), init, op);
      assert init + [op] == ops;
      GuardedIsModest(s);
      GuardedStep(s, op);
      WantedStep(s, op);
      InputStep(s, op);
    }
  }

  lemma StartInput(input: Properties)
    ensures Start(input).input == input
  {}

  lemma GuardedIsModest(s: State)
    requires Guarded(s)
    ensures ModestInv(s)
  {}

  lemma {:induction false} SameRateRun(input: Properties, ops: seq<Op>)
    requires AllAllowed(ops) && KeepsRate(input, ops)
    ensures var s := After(Start(input), ops); s.limit == Wanted(s) && DataRate(s.input) == DataRate(input)
  {
    hide Guarded, Wanted, Apply, Start, After, DataRate, NeverRaises;
    SameRate(input, ops);
    NeverRaisesRun(input, ops);
    if ops == [] {
      StartWants(input);
      RunOfNothing(Start(input));
      StartInput(input);
    } else {
      var init, op := ops[..|ops|-1], ops[|ops|-1];
      var s := After(Start(input), init);
      SameRateRun(input, init);
      SameRate(input, init);
      NeverRaisesRun(input, init);
      AfterSnoc(Start(input), init, op);
      assert init + [op] == ops;
      GuardedIsModest(s);
      WantedStep(s, op);
      InputStep(s, op);
    }
  }

  /** As long as no property change raises the data rate, every pending request of L seconds finds in the
      queue what was received since it was made, or L seconds at the rate in force; the limit is at least
      that rate times the longest of the precapture and the pending requests, and exactly that if the
      rate has not changed. */
  lemma PendingKeepsItsClip(input: Properties, ops: seq<Op>)
    requires AllAllowed(ops) && NeverRaises(input, ops)
    ensures var s := After(Start(input), ops);
      && Kept(s) && s.received == Heard(ops) && s.issued == Issues(ops) && s.input == InputAfter(input, ops)
      && s.limit >= Wanted(s)
      && (KeepsRate(input, ops) ==> s.limit == Wanted(s) && DataRate(s.input) == DataRate(input))
  {
    hide Wanted, After, Start, NeverRaises, KeepsRate, Kept;
    NeverRaisesRun(input, ops);
    LogFields(input, ops);
    if KeepsRate(input, ops) { SameRateRun(input, ops); }
  }

  // ----- what was served -----

  /** How many buffers had been received when the n-th tick came. */
  function HeardAtTick(ops: seq<Op>, n: nat): nat {
    if ops == [] then 0
    else
      var init := ops[..|ops|-1];
      if ops[|ops|-1].Tick? && TicksIn(ops) == n then |Heard(init)| else HeardAtTick(init, n)
  }

  /** The data rate in force at the n-th tick. */
  function RateAtTick(input: Properties, ops: seq<Op>, n: nat): nat {
    if ops == [] then DataRate(input)
    else
      var init := ops[..|ops|-1];
      if ops[|ops|-1].Tick? && TicksIn(ops) == n then DataRate(InputAfter(input, init)) else RateAtTick(input, init, n)
  }

  /** A completed request was served from the latest buffers received by its tick, and these were what
      had been received since it was made, or a full clip. */
  ghost predicate WellServed(c: Completion, history: seq<seq<byte>>, issues: seq<Issue>, rate: nat) {
    && |c.source| <= c.heard <= |history| && c.source == history[c.heard - |c.source|..c.heard]
    && c.id < |issues| && issues[c.id].length == c.length && issues[c.id].start <= c.heard
    && Bytes(c.source) >= Promised(history, issues[c.id].start, c.heard, c.length * rate)
    && c.ret == if c.source == [] then -1 else 0
  }

  ghost predicate WellServedBy(c: Completion, s: State, input: Properties, ops: seq<Op>) {
    && WellServed(c, s.received, s.issued, RateAtTick(input, ops, c.tick))
    && c.tick <= s.ticks && c.heard == HeardAtTick(ops, c.tick)
  }

  ghost predicate AllWellServed(s: State, input: Properties, ops: seq<Op>) {
    forall c :: c in s.done ==> WellServedBy(c, s, input, ops)
  }

  /** What is appended to the histories later changes nothing about a completion. */
  lemma StillWellServed(c: Completion, history: seq<seq<byte>>, more: seq<seq<byte>>,
                        issues: seq<Issue>, later: seq<Issue>, rate: nat)
    requires WellServed(c, history, issues, rate)
    ensures WellServed(c, history + more, issues + later, rate)
  {
    var all, start := history + more, issues[c.id].start;
    assert all[c.heard - |c.source|..c.heard] == history[c.heard - |c.source|..c.heard];
    assert all[start..c.heard] == history[start..c.heard];
    hide Bytes;
  }

  lemma {:induction false} CompleteFacts(due: seq<Request>, tick: nat, queue: seq<seq<byte>>, heard: nat)
    ensures forall c :: c in Complete(due, tick, queue, heard) ==>
      && c.tick == tick && c.source == queue && c.heard == heard && c.ret == (if queue == [] then -1 else 0)
      && exists r :: r in due && r.id == c.id && r.length == c.length
  {
    if due != [] {
      var init, last := due[..|due|-1], due[|due|-1];
      CompleteFacts(init, tick, queue, heard);
      forall c | c in Complete(due, tick, queue, heard)
        ensures c.tick == tick && c.source == queue && c.heard == heard && c.ret == (if queue == [] then -1 else 0)
        ensures exists r :: r in due && r.id == c.id && r.length == c.length
      {
        if c in Complete(init, tick, queue, heard) {
          var r :| r in init && r.id == c.id && r.length == c.length;
          assert r in due;
        } else {
          assert last in due && last.id == c.id;
        }
      }
    }
  }

  /** A tick serves the requests that are due from the whole queue, before trimming it. */
  lemma TickServesWell(s: State, c: Completion)
    requires HistoryInv(s) && Kept(s) && c in Served(s, Op.Tick)
    ensures WellServed(c, s.received, s.issued, DataRate(s.input)) && c.tick == s.ticks + 1 && c.heard == |s.received|
  {
    hide Due, Rest, Complete, Bytes, DataRate, Promised, Kept;
    CompleteFacts(Due(s.requests), s.ticks + 1, s.queue, |s.received|);
    RestAndDue(s.requests);
    var r :| r in Due(s.requests) && r.id == c.id && r.length == c.length;
    KeptIsForEach(s, r);
    assert s.received[|s.released|..|s.received|] == s.queue;
  }

  function Served(s: State, op: Op): seq<Completion> {
    if op.Tick? then Complete(Due(s.requests), s.ticks + 1, s.queue, |s.received|) else []
  }

  lemma Grown(s: State, op: Op)
    ensures var t := Apply(s, op);
      && s.received <= t.received && s.issued <= t.issued
      && t.done == s.done + Served(s, op) && t.ticks == s.ticks + (if op.Tick? then 1 else 0)
  {
    hide LimitFor, Excess, DropCount, Bytes, Rest, Due, Complete;
  }

  lemma {:induction false} AtOldTicks(input: Properties, ops: seq<Op>, op: Op, n: nat)
    ensures n <= TicksIn(ops) ==> HeardAtTick(ops + [op], n) == HeardAtTick(ops, n)
    ensures n <= TicksIn(ops) ==> RateAtTick(input, ops + [op], n) == RateAtTick(input, ops, n)
    ensures op.Tick? ==> HeardAtTick(ops + [op], TicksIn(ops) + 1) == |Heard(ops)|
    ensures op.Tick? ==> RateAtTick(input, ops + [op], TicksIn(ops) + 1) == DataRate(InputAfter(input, ops))
  {
    assert (ops + [op])[..|ops|] == ops;
    hide DataRate;
  }

  /** A completion recorded before op is as good after it. */
  lemma OldStays(s: State, input: Properties, ops: seq<Op>, op: Op, c: Completion)
    requires AllWellServed(s, input, ops) && s.ticks == TicksIn(ops) && c in s.done
    ensures WellServedBy(c, Apply(s, op), input, ops + [op])
  {
    hide Apply, WellServed, HeardAtTick, RateAtTick, TicksIn;
    var t := Apply(s, op);
    Grown(s, op);
    AtOldTicks(input, ops, op, c.tick);
    assert s.received + t.received[|s.received|..] == t.received && s.issued + t.issued[|s.issued|..] == t.issued;
    StillWellServed(c, s.received, t.received[|s.received|..], s.issued, t.issued[|s.issued|..],
                    RateAtTick(input, ops, c.tick));
  }

  /** So is one that a tick records. */
  lemma NewIsWell(s: State, input: Properties, ops: seq<Op>, c: Completion)
    requires HistoryInv(s) && Kept(s) && c in Served(s, Op.Tick)
    requires s.ticks == TicksIn(ops) && s.received == Heard(ops) && s.input == InputAfter(input, ops)
    ensures WellServedBy(c, Apply(s, Op.Tick), input, ops + [Op.Tick])
  {
    hide Apply, WellServed, HeardAtTick, RateAtTick, HistoryInv, Kept, Served, DataRate, TicksIn, Heard, InputAfter;
    var t := Apply(s, Op.Tick);
    Grown(s, Op.Tick);
    TickServesWell(s, c);
    AtOldTicks(input, ops, Op.Tick, c.tick);
    assert s.received + t.received[|s.received|..] == t.received && s.issued + t.issued[|s.issued|..] == t.issued;
    StillWellServed(c, s.received, t.received[|s.received|..], s.issued, t.issued[|s.issued|..], DataRate(s.input));
  }

  lemma ServedStep(s: State, input: Properties, ops: seq<Op>, op: Op)
    requires HistoryInv(s) && Kept(s) && AllWellServed(s, input, ops)
    requires s.ticks == TicksIn(ops) && s.received == Heard(ops) && s.input == InputAfter(input, ops)
    ensures AllWellServed(Apply(s, op), input, ops + [op])
  {
    hide Apply, WellServed, HeardAtTick, RateAtTick, HistoryInv, Kept, Complete, Due, TicksIn, Heard, InputAfter;
    var t := Apply(s, op);
    Grown(s, op);
    forall c | c in t.done ensures WellServedBy(c, t, input, ops + [op]) {
      if c in s.done { OldStays(s, input, ops, op, c); } else { NewIsWell(s, input, ops, c); }
    }
  }

  lemma {:induction false} ServedRun(input: Properties, ops: seq<Op>)
    requires AllAllowed(ops) && NeverRaises(input, ops)
    ensures AllWellServed(After(Start(input), ops), input, ops)
  {
    if ops != [] {
      var init, op := ops[..|ops|-1], ops[|ops|-1];
      ServedRun(input, init);
      NeverRaisesRun(input, init);
      LogFields(input, init);
      AfterSnoc(Start(input), init, op);
      assert init + [op] == ops;
      hide After, HistoryInv, Kept, AllWellServed, Apply, Heard, TicksIn, InputAfter;
      ServedStep(After(Start(input), init), input, init, op);
    }
  }

  /** As long as no property change raises the data rate, each served request was served from the latest
      buffers received by its tick, and these hold at least what had been received since it was made, or
      its full length at the rate of that tick. */
  lemma ClipsAreServedInFull(input: Properties, ops: seq<Op>)
    requires AllAllowed(ops) && NeverRaises(input, ops)
    ensures forall c :: c in After(Start(input), ops).done ==>
      && WellServed(c, Heard(ops), Issues(ops), RateAtTick(input, ops, c.tick))
      && c.heard == HeardAtTick(ops, c.tick)
  {
    ServedRun(input, ops);
    LogFields(input, ops);
    hide After, WellServed, HeardAtTick, RateAtTick;
  }

  // ----- a change that raises it -----

  /** A property change leaves the limit as it was, so it is the one a new computation would
      give exactly when the data rate did not change or no time at all is being kept. */
  lemma StaleLimitExactly(s: State, p: Properties)
    requires ModestInv(s) && s.limit == LimitFor(s.precapture, s.requests, s.input)
    ensures var t := Apply(s, SetProperties(p));
      t.limit == LimitFor(t.precapture, t.requests, t.input)
      <==> DataRate(p) == DataRate(s.input) || Longest(s.precapture, Lengths(s.requests)) == 0
  {
    LimitIsModest(s.precapture, s.requests, s.input);
    LimitIsModest(s.precapture, s.requests, p);
    var m := Longest(s.precapture, Lengths(s.requests));
    hide *;
    ProductsDiffer(m, DataRate(p), DataRate(s.input));
  }

  lemma ProductsDiffer(m: nat, a: nat, b: nat)
    ensures m * a == m * b <==> a == b || m == 0
  {
    if m > 0 && a < b { MulStep(a, b, m); }
    if m > 0 && b < a { MulStep(b, a, m); }
  }

  const SLOW := Properties(Mono16, Hz16000, 0, 0, 0)
  const FAST := Properties(Stereo16, Hz48000, 0, 0, 0)

  function Loaded(a: seq<byte>, b: seq<byte>): State {
    State([a, b], 448000, 6, 224000, [Request(0, 7, 7)], 1, FAST, [a, b], [], 0, [Issue(0, 7, 0)], [])
  }

  lemma RequestMade(input: Properties)
    requires DataRate(input) == 32000
    ensures Apply(Start(input), Fresh(7))
      == State([], 0, 6, 224000, [Request(0, 7, 7)], 1, input, [], [], 0, [Issue(0, 7, 0)], [])
  {
    var rs := [Request(0, 7, 7)];
    LimitIsModest(6, rs, input);
    assert [] + rs == rs && Lengths(rs) == [7] && [7][..0] == [] && Longest(6, []) == 6;
    assert [] + [Issue(0, 7, 0)] == [Issue(0, 7, 0)];
    hide LimitFor, Lengths, DataRate;
  }

  lemma WitnessRates()
    ensures DataRate(SLOW) == 32000 && DataRate(FAST) == 192000
  {
    RateBound(SLOW);
    RateBound(FAST);
  }

  lemma TwoArrive(a: seq<byte>, b: seq<byte>)
    requires |a| == |b| == 224000
    ensures var s := State([], 0, 6, 224000, [Request(0, 7, 7)], 1, SLOW, [], [], 0, [Issue(0, 7, 0)], []);
      Apply(Apply(Apply(s, SetProperties(FAST)), Callback(a)), Callback(b)) == Loaded(a, b)
  {
    assert [] + [a] + [b] == [a, b];
  }

  lemma TickDrops(a: seq<byte>, b: seq<byte>)
    requires |a| == 224000
    ensures var t := TickStep(Loaded(a, b));
      && t.queue == [b] && t.requests == [Request(0, 7, 6)] && t.received == [a, b] && t.issued == [Issue(0, 7, 0)]
      && t.input == FAST
  {
    var rs := [Request(0, 7, 7)];
    assert rs[..0] == [] && Due([]) == [] && Rest([]) == [];
    assert Due(rs) == [] && Rest(rs) == [Request(0, 7, 6)];
    var q := [a, b];
    assert q[1..] == [b] && q[0] == a && DropCount([b], 0) == 0;
    assert Excess(448000, 224000) == 224000 && DropCount(q, 224000) == 1;
    hide Due, Rest, LimitFor, Bytes, DropCount, Excess;
  }

  lemma FiveSteps(s: State, ops: seq<Op>)
    requires |ops| == 5
    ensures After(s, ops) == Apply(Apply(Apply(Apply(Apply(s, ops[0]), ops[1]), ops[2]), ops[3]), ops[4])
  {
    hide Apply;
    var d := Apply(Apply(Apply(Apply(s, ops[0]), ops[1]), ops[2]), ops[3]);
    assert ops[1..][1..] == ops[2..] && ops[2..][1..] == ops[3..] && ops[3..][1..] == ops[4..] && ops[4..][1..] == [];
    assert After(s, ops) == After(Apply(s, ops[0]), ops[1..]);
    assert After(Apply(s, ops[0]), ops[1..]) == After(Apply(Apply(s, ops[0]), ops[1]), ops[2..]);
    assert After(Apply(Apply(s, ops[0]), ops[1]), ops[2..]) == After(Apply(Apply(Apply(s, ops[0]), ops[1]), ops[2]), ops[3..]);
    assert After(Apply(Apply(Apply(s, ops[0]), ops[1]), ops[2]), ops[3..]) == After(d, ops[4..]);
    assert After(d, ops[4..]) == Apply(d, ops[4]);
  }

  /** A request made before capture is switched to a higher rate can lose what it was promised: of the
      448000 bytes received since, which is less than its seven seconds, the next tick drops half. */
  lemma StaleLimitLosesAudio(a: seq<byte>, b: seq<byte>)
    requires |a| == |b| == 224000
    ensures var t := After(Start(SLOW), [Fresh(7), SetProperties(FAST), Callback(a), Callback(b), Tick]);
      && t.requests == [Request(0, 7, 6)] && t.received == [a, b] && t.issued == [Issue(0, 7, 0)]
      && t.queue == [b] && Bytes(t.queue) == 224000 && Promised(t.received, 0, 2, 7 * DataRate(t.input)) == 448000
  {
    FiveSteps(Start(SLOW), [Fresh(7), SetProperties(FAST), Callback(a), Callback(b), Tick]);
    WitnessRates();
    hide DataRate;
    RequestMade(SLOW);
    TwoArrive(a, b);
    TickDrops(a, b);
    BytesOne(a);
    BytesOne(b);
    BytesJoin([a], [b]);
    assert [a, b][0..2] == [a] + [b];
    hide After, Start, TickStep, Bytes;
  }

  /** Two seconds asked for, and as many received twice over by the next tick. */
  function TwiceReceived(a: seq<byte>, b: seq<byte>): State {
    State([a, b], 128000, 0, 64000, [Request(0, 2, 2)], 1, SLOW, [a, b], [], 0, [Issue(0, 2, 0)], [])
  }

  /** One of the two dropped. */
  function OneDropped(a: seq<byte>, b: seq<byte>): State {
    State([b], 64000, 0, 64000, [Request(0, 2, 1)], 1, SLOW, [a, b], [a], 1, [Issue(0, 2, 0)], [])
  }

  lemma TwoSecondsRequested()
    ensures Apply(Apply(Start(SLOW), SetPrecapture(0)), Fresh(2))
      == State([], 0, 0, 64000, [Request(0, 2, 2)], 1, SLOW, [], [], 0, [Issue(0, 2, 0)], [])
  {
    var rs := [Request(0, 2, 2)];
    WitnessRates();
    hide DataRate;
    LimitIsModest(0, [], SLOW);
    LimitIsModest(0, rs, SLOW);
    assert Lengths([]) == [] && Longest(0, []) == 0 && Lengths(rs) == [2] && [2][..0] == [];
    assert [] + rs == rs && [] + [Issue(0, 2, 0)] == [Issue(0, 2, 0)];
    hide LimitFor, Lengths, Bytes;
  }

  lemma OneIsDropped(a: seq<byte>, b: seq<byte>)
    requires |a| == |b| == 64000
    ensures Apply(TwiceReceived(a, b), Op.Tick) == OneDropped(a, b)
  {
    var rs, q := [Request(0, 2, 2)], [a, b];
    assert rs[..0] == [] && Due([]) == [] && Rest([]) == [] && Due(rs) == [] && Rest(rs) == [Request(0, 2, 1)];
    assert q[1..] == [b] && q[..1] == [a] && DropCount([b], 0) == 0;
    assert Excess(128000, 64000) == 64000 && DropCount(q, 64000) == 1;
    BytesOne(a);
    hide Due, Rest, LimitFor, Bytes, DropCount, Excess;
  }

  lemma MinuteKept(a: seq<byte>, b: seq<byte>)
    ensures Apply(OneDropped(a, b), SetPrecapture(60)) == OneDropped(a, b).(precapture := 60, limit := 1920000)
  {
    var rs := [Request(0, 2, 1)];
    WitnessRates();
    hide DataRate;
    LimitIsModest(60, rs, SLOW);
    assert Lengths(rs) == [2] && [2][..0] == [] && Longest(60, []) == 60;
    assert Excess(64000, 1920000) < 0 && Bytes([b][..0]) == 0;
    hide LimitFor, Lengths, Bytes, Excess;
  }

  /** That the promise holds at the moment of a change is a condition of its own. Here every length fits the
      limit at the new rate, and yet half of the 128000 bytes received since the request, all of them
      promised now, are gone already. */
  lemma RaiseBreaksAtOnce(a: seq<byte>, b: seq<byte>)
    requires |a| == |b| == 64000
    ensures var ops := [SetPrecapture(0), Fresh(2), Callback(a), Callback(b), Op.Tick] + [SetPrecapture(60)];
      var s := After(Start(SLOW), ops);
      Kept(s) && FitsAt(s, FAST) && !Kept(Apply(s, SetProperties(FAST)))
  {
    hide After, Apply, Start, Kept, DataRate;
    var first := [SetPrecapture(0), Fresh(2), Callback(a), Callback(b), Op.Tick];
    FiveSteps(Start(SLOW), first);
    AfterSnoc(Start(SLOW), first, SetPrecapture(60));
    TwoSecondsRequested();
    BothArrive(a, b);
    OneIsDropped(a, b);
    MinuteKept(a, b);
    AskedForMore(a, b);
  }

  lemma AskedForMore(a: seq<byte>, b: seq<byte>)
    requires |a| == |b| == 64000
    ensures var s := OneDropped(a, b).(precapture := 60, limit := 1920000);
      Kept(s) && FitsAt(s, FAST) && !Kept(Apply(s, SetProperties(FAST)))
  {
    hide Bytes, DataRate, Apply;
    var s := OneDropped(a, b).(precapture := 60, limit := 1920000);
    WitnessRates();
    InputOnly(s, FAST);
    BytesOne(a);
    BytesOne(b);
    BytesJoin([a], [b]);
    assert [a, b][0..2] == [a] + [b];
    assert !KeptFor(s.(input := FAST), s.requests[0]);
  }

  lemma InputOnly(s: State, p: Properties)
    ensures Apply(s, SetProperties(p)) == s.(input := p)
  {}

  lemma BothArrive(a: seq<byte>, b: seq<byte>)
    requires |a| == |b| == 64000
    ensures var s := State([], 0, 0, 64000, [Request(0, 2, 2)], 1, SLOW, [], [], 0, [Issue(0, 2, 0)], []);
      Apply(Apply(s, Callback(a)), Callback(b)) == TwiceReceived(a, b)
  {
    assert [] + [a] + [b] == [a, b];
  }
}
