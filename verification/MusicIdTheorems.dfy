/** Properties of every run of the music-id client. */
module MusicIdTheorems {
  import opened AudioProperties
  import opened Striding
  import opened ConverterSpec
  import opened MusicIdSpec

  // ----- bytes of a buffer list -----

  lemma {:induction false} BytesJoin(a: seq<seq<byte>>, b: seq<seq<byte>>)
    ensures Bytes(a + b) == Bytes(a) + Bytes(b)
    decreases |b|
  {
    if b == [] {
      assert a + b == a;
    } else {
      var init := b[..|b|-1];
      BytesJoin(a, init);
      assert Sizes(a + b)[..|a + b|-1] == Sizes(a + init);
      assert Sizes(b)[..|b|-1] == Sizes(init);
    }
  }

  lemma BytesSplit(q: seq<seq<byte>>, k: nat)
    requires k <= |q|
    ensures Bytes(q) == Bytes(q[..k]) + Bytes(q[k..])
  {
    BytesJoin(q[..k], q[k..]);
    assert q[..k] + q[k..] == q;
  }

  lemma BytesOne(data: seq<byte>)
    ensures Bytes([data]) == |data|
  {
    var ns := Sizes([data]);
    assert ns == [|data|] && ns[..0] == [];
    assert Total(ns) == Total(ns[..0]) + ns[0];
  }

  lemma BytesHead(q: seq<seq<byte>>)
    requires q != []
    ensures Bytes(q) == |q[0]| + Bytes(q[1..])
  {
    BytesSplit(q, 1);
    BytesOne(q[0]);
    assert q[..1] == [q[0]];
  }

  // ----- one trim -----

  lemma {:induction false} DropFacts(q: seq<seq<byte>>, excess: int)
    ensures var k := DropCount(q, excess);
      && (k > 0 ==> Bytes(q[..k]) <= excess)
      && (k < |q| && excess > 0 ==> excess - Bytes(q[..k]) < |q[k]| || excess == Bytes(q[..k]))
    decreases |q|
  {
    var k := DropCount(q, excess);
    if k > 0 {
      DropFacts(q[1..], excess - |q[0]|);
      BytesHead(q[..k]);
      assert q[..k][1..] == q[1..][..k-1];
    }
    assert q[..0] == [] && Bytes([]) == 0;
  }

  lemma {:induction false} RunsOutExactly(q: seq<seq<byte>>, excess: int)
    ensures FrontOfEmpty(q, excess) <==> excess > Bytes(q)
    decreases |q|
  {
    if q == [] {
      assert Bytes(q) == 0;
    } else {
      BytesHead(q);
      RunsOutExactly(q[1..], excess - |q[0]|);
    }
  }

  /** The trim loop never looks at the front of an empty queue, unless the limit exceeds the total
      by more than 2^31, when the signed difference comes out positive. */
  lemma FrontOfEmptyExactly(q: seq<seq<byte>>, limit: nat)
    requires Bytes(q) < U32 && limit < U32
    ensures FrontOfEmpty(q, Excess(Bytes(q), limit)) <==> limit - Bytes(q) > I32_LIMIT
  {
    RunsOutExactly(q, Excess(Bytes(q), limit));
  }

  /** m is where the shortest suffix of the history holding at least `least` bytes begins. */
  ghost predicate ShortestSuffix(history: seq<seq<byte>>, m: nat, least: nat) {
    && m <= |history| && Bytes(history[m..]) >= least
    && forall j :: m < j <= |history| ==> Bytes(history[j..]) < least
  }

  lemma SuffixShrinks(q: seq<seq<byte>>, i: nat, j: nat)
    requires i <= j <= |q|
    ensures Bytes(q[j..]) <= Bytes(q[i..])
  {
    BytesSplit(q[i..], j - i);
    assert q[i..][j-i..] == q[j..];
  }

  ghost predicate NonEmpty(q: seq<seq<byte>>) {
    forall i :: 0 <= i < |q| ==> |q[i]| > 0
  }

  /** The history is what was released followed by what is queued; the total is the queue's. */
  ghost predicate HistoryInv(s: State) {
    s.received == s.released + s.queue && s.totalSize == Bytes(s.queue) % U32
  }

  lemma QueueShortest(q: seq<seq<byte>>, limit: nat)
    requires NonEmpty(q) && Bytes(q) > limit
    ensures ShortestSuffix(q, DropCount(q, Bytes(q) - limit), limit)
  {
    var k := DropCount(q, Bytes(q) - limit);
    DropFacts(q, Bytes(q) - limit);
    BytesSplit(q, k);
    forall j | k < j <= |q| ensures Bytes(q[j..]) < limit {
      BytesHead(q[k..]);
      assert q[k..][1..] == q[k+1..] && q[k..][0] == q[k];
      SuffixShrinks(q, k + 1, j);
    }
  }

  /** A trim either drops nothing, the queue being within the limit, or leaves the shortest suffix of
      the whole history with at least the limit in bytes. */
  lemma TrimIsShortest(s: State)
    requires HistoryInv(s) && NonEmpty(s.received)
    requires Bytes(s.queue) < I32_LIMIT && s.limit < I32_LIMIT
    ensures var t := TrimStep(s);
      && t.received == s.received
      && if Bytes(s.queue) <= s.limit then t.queue == s.queue
         else ShortestSuffix(s.received, |t.released|, s.limit)
  {
    hide *;
    TrimShape(s);
    var p, q, k := s.released, s.queue, DropCount(s.queue, Bytes(s.queue) - s.limit);
    if Bytes(q) > s.limit {
      QueueNonEmpty(p, q);
      QueueShortest(q, s.limit);
      ShortestBehind(p, q, k, s.limit);
    }
  }

  lemma TrimShape(s: State)
    requires HistoryInv(s) && Bytes(s.queue) < I32_LIMIT && s.limit < I32_LIMIT
    ensures s.received == s.released + s.queue && TrimStep(s).received == s.received
    ensures var k := DropCount(s.queue, Bytes(s.queue) - s.limit);
      && k <= |s.queue| && TrimStep(s).queue == s.queue[k..] && |TrimStep(s).released| == |s.released| + k
      && (Bytes(s.queue) <= s.limit ==> s.queue[k..] == s.queue)
  {
    ExcessExact(Bytes(s.queue), s.limit);
    hide Excess, Bytes;
  }

  lemma QueueNonEmpty(p: seq<seq<byte>>, q: seq<seq<byte>>)
    requires NonEmpty(p + q)
    ensures NonEmpty(q)
  {
    assert forall i :: 0 <= i < |q| ==> q[i] == (p + q)[|p| + i];
  }

  lemma ExcessExact(total: nat, limit: nat)
    requires total < I32_LIMIT && limit < I32_LIMIT
    ensures Excess(total % U32, limit) == total - limit
  {}

  lemma ShortestBehind(p: seq<seq<byte>>, q: seq<seq<byte>>, k: nat, least: nat)
    requires ShortestSuffix(q, k, least)
    ensures ShortestSuffix(p + q, |p| + k, least)
  {
    forall j | |p| <= j <= |p + q| ensures (p + q)[j..] == q[j - |p|..] {}
  }

  lemma TrimKeepsHistory(s: State)
    requires HistoryInv(s)
    ensures HistoryInv(TrimStep(s)) && TrimStep(s).received == s.received
  {
    TrimTotal(s);
    TrimOrder(s);
    hide TrimStep, Bytes;
  }

  lemma TrimOrder(s: State)
    ensures TrimStep(s).released + TrimStep(s).queue == s.released + s.queue && TrimStep(s).received == s.received
  {
    var q, k := s.queue, DropCount(s.queue, Excess(s.totalSize, s.limit));
    hide Excess, Bytes;
    assert q == q[..k] + q[k..];
  }

  lemma TrimTotal(s: State)
    requires s.totalSize == Bytes(s.queue) % U32
    ensures TrimStep(s).totalSize == Bytes(TrimStep(s).queue) % U32
  {
    var q, k := s.queue, DropCount(s.queue, Excess(s.totalSize, s.limit));
    BytesSplit(q, k);
    var t := TrimStep(s);
    assert t.queue == q[k..] && t.totalSize == (s.totalSize - Bytes(q[..k])) % U32;
    hide *;
    ModMinus(Bytes(q), Bytes(q[..k]));
  }

  lemma ModMinus(a: nat, b: nat)
    requires b <= a
    ensures (a % U32 - b) % U32 == (a - b) % U32
  {
    var q := a / U32;
    assert a == q * U32 + a % U32;
    assert a - b == (a % U32 - b) + q * U32;
  }

  lemma ModPlus(a: nat, b: nat)
    ensures (a % U32 + b) % U32 == (a + b) % U32
  {
    var q := a / U32;
    assert a == q * U32 + a % U32;
    assert a + b == (a % U32 + b) + q * U32;
  }

  /** Whatever the total, a trim that drops anything leaves at least the limit. */
  lemma TrimLeavesLimit(s: State)
    requires HistoryInv(s) && s.limit < I32_LIMIT
    ensures var t := TrimStep(s); t.queue == s.queue || Bytes(t.queue) >= s.limit
  {
    var excess := Excess(s.totalSize, s.limit);
    var k := DropCount(s.queue, excess);
    DropFacts(s.queue, excess);
    BytesSplit(s.queue, k);
    if k > 0 {
      assert excess <= s.totalSize - s.limit <= Bytes(s.queue) - s.limit;
    }
  }

  /** In every reachable state the queue is a suffix of all that was received, and the total is its size. */
  lemma {:induction false} HistoryRun(s: State, ops: seq<Op>)
    requires HistoryInv(s)
    ensures HistoryInv(After(s, ops)) && s.received <= After(s, ops).received
    decreases ops
  {
    if ops != [] {
      HistoryStep(s, ops[0]);
      HistoryRun(Apply(s, ops[0]), ops[1..]);
    }
  }

  lemma HistoryStep(s: State, op: Op)
    requires HistoryInv(s)
    ensures HistoryInv(Apply(s, op)) && s.received <= Apply(s, op).received
  {
    match op
    case Callback(data) =>
      BytesJoin(s.queue, [data]);
      BytesOne(data);
      assert s.released + (s.queue + [data]) == s.received + [data];
      ModPlus(Bytes(s.queue), |data|);
    case SetPrecapture(n) => TrimKeepsHistory(s.(precapture := n, limit := LimitFor(n, s.requests, s.input)));
    case Tick =>
      TrimKeepsHistory(s.(limit := TickLimit(s)));
    case _ =>
  }

  function TickLimit(s: State): nat {
    if Due(s.requests) == [] then s.limit else LimitFor(s.precapture, Rest(s.requests), s.input)
  }

  lemma SuffixOfHistory(input: Properties, ops: seq<Op>)
    ensures var t := After(Start(input), ops);
      t.received == t.released + t.queue && t.totalSize == Bytes(t.queue) % U32
  {
    HistoryRun(Start(input), ops);
  }

  // ----- limits -----

  ghost predicate AllAllowed(ops: seq<Op>) {
    forall i :: 0 <= i < |ops| ==> Allowed(ops[i])
  }

  /** Durations stay supported, so the limit never comes near 2^31. */
  ghost predicate ModestInv(s: State) {
    && s.precapture <= MAX_CLIP_SECONDS
    && (forall r :: r in s.requests ==> r.length <= MAX_CLIP_SECONDS)
    && s.limit <= MAX_CLIP_SECONDS * MAX_DATA_RATE
  }

  lemma {:induction false} RestAndDue(rs: seq<Request>)
    ensures forall r :: r in Rest(rs) ==> r.(remaining := r.remaining + 1) in rs
    ensures forall r :: r in Due(rs) ==> r in rs && r.remaining == 0
  {
    if rs != [] {
      RestAndDue(rs[..|rs|-1]);
      assert rs == rs[..|rs|-1] + [rs[|rs|-1]];
    }
  }

  lemma {:induction false} NoneDue(rs: seq<Request>)
    requires Due(rs) == []
    ensures Lengths(Rest(rs)) == Lengths(rs)
  {
    if rs != [] {
      NoneDue(rs[..|rs|-1]);
      assert Lengths(rs)[..|rs|-1] == Lengths(rs[..|rs|-1]);
    }
  }

  lemma LongestIsModest(precapture: nat, requests: seq<Request>)
    requires precapture <= MAX_CLIP_SECONDS && forall r :: r in requests ==> r.length <= MAX_CLIP_SECONDS
    ensures precapture <= Longest(precapture, Lengths(requests)) <= MAX_CLIP_SECONDS
    ensures forall r :: r in requests ==> r.length <= Longest(precapture, Lengths(requests))
  {
    var ls := Lengths(requests);
    assert forall i :: 0 <= i < |ls| ==> ls[i] == requests[i].length && requests[i] in requests;
  }

  lemma SmallProduct(seconds: nat, rate: nat)
    requires seconds <= MAX_CLIP_SECONDS && rate <= MAX_DATA_RATE
    ensures seconds * rate % U32 == seconds * rate <= MAX_CLIP_SECONDS * MAX_DATA_RATE
  {
    MulMono(seconds, MAX_CLIP_SECONDS, rate);
    MulMono(rate, MAX_DATA_RATE, MAX_CLIP_SECONDS);
    var n := seconds * rate;
    assert n <= MAX_CLIP_SECONDS * MAX_DATA_RATE < U32;
    assert n % U32 == n;
  }

  lemma LimitIsModest(precapture: nat, requests: seq<Request>, input: Properties)
    requires precapture <= MAX_CLIP_SECONDS && forall r :: r in requests ==> r.length <= MAX_CLIP_SECONDS
    ensures LimitFor(precapture, requests, input) == Longest(precapture, Lengths(requests)) * DataRate(input)
    ensures LimitFor(precapture, requests, input) <= MAX_CLIP_SECONDS * MAX_DATA_RATE
    ensures forall r :: r in requests ==> r.length * DataRate(input) <= LimitFor(precapture, requests, input)
  {
    LongestIsModest(precapture, requests);
    RateBound(input);
    var m, rate := Longest(precapture, Lengths(requests)), DataRate(input);
    hide DataRate, Longest, Lengths;
    SmallProduct(m, rate);
    forall r | r in requests ensures r.length * rate <= m * rate {
      MulMono(r.length, m, rate);
    }
  }

  lemma ModestStep(s: State, op: Op)
    requires ModestInv(s) && Allowed(op)
    ensures ModestInv(Apply(s, op))
  {
    match op
    case SetPrecapture(n) => LimitIsModest(n, s.requests, s.input);
    case Fresh(n) =>
      LimitIsModest(s.precapture, s.requests + [Request(s.counter, n, n)], s.input);
    case Tick =>
      RestAndDue(s.requests);
      LimitIsModest(s.precapture, Rest(s.requests), s.input);
    case _ =>
  }

  lemma {:induction false} ModestRun(s: State, ops: seq<Op>)
    requires ModestInv(s) && AllAllowed(ops)
    ensures ModestInv(After(s, ops))
    decreases ops
  {
    if ops != [] {
      ModestStep(s, ops[0]);
      ModestRun(Apply(s, ops[0]), ops[1..]);
    }
  }

  lemma StartIsModest(input: Properties)
    ensures ModestInv(Start(input)) && HistoryInv(Start(input))
  {
    LimitIsModest(DEFAULT_PRECAPTURE_SECONDS, [], input);
  }

  /** In every run, a trimming operation leaves the queue alone if it is within the limit and otherwise
      cuts it to the shortest suffix of everything received that holds the limit. */
  lemma TrimInRun(input: Properties, ops: seq<Op>, op: Op)
    requires AllAllowed(ops) && Allowed(op) && (op.Tick? || op.SetPrecapture?)
    requires NonEmpty(After(Start(input), ops).received) && Bytes(After(Start(input), ops).queue) < I32_LIMIT
    ensures var s := After(Start(input), ops); var t := Apply(s, op);
      if Bytes(s.queue) <= t.limit then t.queue == s.queue
      else ShortestSuffix(t.received, |t.released|, t.limit)
  {
    var s := After(Start(input), ops);
    StartIsModest(input);
    ModestRun(Start(input), ops);
    HistoryRun(Start(input), ops);
    ModestStep(s, op);
    if op.Tick? {
      TrimIsShortest(s.(limit := TickLimit(s)));
    } else {
      TrimIsShortest(s.(precapture := op.seconds, limit := LimitFor(op.seconds, s.requests, s.input)));
    }
  }
}
