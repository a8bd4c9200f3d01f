/** From the capture device to the music-id history: the queue protocol and the music-id client put
    together. `data[b]` is the b-th buffer the device ever delivered. */
module Pipeline {
  import opened AudioProperties
  import opened Striding
  import opened ConverterSpec
  import Q = QueueProtocol
  import QI = QueueInvariants
  import QT = QueueTheorems
  import opened MusicIdSpec
  import opened MusicIdTheorems
  import opened MusicIdSchedule
  import opened MusicIdPromise
  import opened MusicIdClips

  /** The bytes of the buffers with these ids. */
  function Payloads(data: seq<seq<byte>>, ids: seq<nat>): seq<seq<byte>>
    requires forall k :: 0 <= k < |ids| ==> ids[k] < |data|
  {
    seq(|ids|, k requires 0 <= k < |ids| => data[ids[k]])
  }

  lemma RegisterFirst(limit: nat, c: Q.ClientId, rest: seq<Q.Label>)
    requires Q.Legal(Q.Init(limit), [Q.Register(c)] + rest)
    ensures var m := Q.RegisterStep(Q.Init(limit), c);
      && Q.Legal(m, rest) && Q.Exec(Q.Init(limit), [Q.Register(c)] + rest) == Q.Exec(m, rest)
      && QI.Inv(m) && c in m.clients && QT.Seen(m, c) == [] && Q.Received(m, c) == []
  {
    var run := [Q.Register(c)] + rest;
    assert run[0] == Q.Register(c) && run[1..] == rest;
    QI.InitInv(limit);
    QI.Step(Q.Init(limit), Q.Register(c));
  }

  /** A client registered before any capture, and since, has been handed the buffers processed so far
      in order from the very first, as far as it has been reached. */
  lemma HandedFromTheFirst(limit: nat, c: Q.ClientId, rest: seq<Q.Label>)
    requires Q.Legal(Q.Init(limit), [Q.Register(c)] + rest) && Q.Unregister(c) !in rest
    ensures var t := Q.Exec(Q.Init(limit), [Q.Register(c)] + rest);
      c in t.clients && Q.Received(t, c) == QT.Seen(t, c) && QT.Seen(t, c) <= t.processed + t.outgoing + t.incoming
  {
    hide Q.Legal, Q.Exec, Q.RegisterStep, Q.Received, QI.Inv, QT.Reached;
    RegisterFirst(limit, c, rest);
    var m := Q.RegisterStep(Q.Init(limit), c);
    var t := Q.Exec(m, rest);
    QT.RegisteredClientSeesAll(m, rest, c);
    assert QT.Seen(t, c)[0..] == QT.Seen(t, c);
    assert t.outgoing == t.outgoing[..QT.Reached(t, c)] + t.outgoing[QT.Reached(t, c)..];
  }

  /** If nothing overflowed, these are exactly the first so many buffers captured. */
  lemma HandedIsCaptured(limit: nat, c: Q.ClientId, rest: seq<Q.Label>)
    requires var run := [Q.Register(c)] + rest;
      Q.Legal(Q.Init(limit), run) && Q.Unregister(c) !in rest && QT.NeverOverflows(Q.Init(limit), run)
    ensures var run := [Q.Register(c)] + rest;
      var got := Q.Received(Q.Exec(Q.Init(limit), run), c);
      |got| <= |QT.Added(run)| && forall k :: 0 <= k < |got| ==> got[k] == k
  {
    var run := [Q.Register(c)] + rest;
    HandedFromTheFirst(limit, c, rest);
    QT.FifoExact(limit, run);
    var t := Q.Exec(Q.Init(limit), run);
    var got, all := Q.Received(t, c), t.processed + t.outgoing + t.incoming;
    assert all == QI.Upto(|QT.Added(run)|);
    assert forall k :: 0 <= k < |got| ==> got[k] == all[k];
  }

  /** End to end: whatever the interleaving on one side and the requests on the other, the history of a
      music-id client registered from the start is what the device captured, without a gap, up to the
      last buffer handed over, and its queue is the latest part of that. */
  lemma QueueIsLatestCapture(limit: nat, c: Q.ClientId, rest: seq<Q.Label>, data: seq<seq<byte>>,
                             input: Properties, ops: seq<Op>)
    requires var run := [Q.Register(c)] + rest;
      && Q.Legal(Q.Init(limit), run) && Q.Unregister(c) !in rest && QT.NeverOverflows(Q.Init(limit), run)
      && |data| == |QT.Added(run)|
    requires var got := Q.Received(Q.Exec(Q.Init(limit), [Q.Register(c)] + rest), c);
      (forall k :: 0 <= k < |got| ==> got[k] < |data|) && Heard(ops) == Payloads(data, got)
    ensures var n := |Q.Received(Q.Exec(Q.Init(limit), [Q.Register(c)] + rest), c)|;
      var s := After(Start(input), ops);
      && n <= |data| && s.received == data[..n] && |s.queue| <= n && s.queue == data[n-|s.queue|..n]
  {
    hide Q.Legal, Q.Exec, QT.NeverOverflows, QT.Added, After, Start, Heard;
    HandedIsCaptured(limit, c, rest);
    SuffixOfHistory(input, ops);
    LogFields(input, ops);
    var s := After(Start(input), ops);
    var n := |s.received|;
    assert s.received == data[..n];
    assert s.queue == s.received[n-|s.queue|..];
  }

  /** And a clip is the latest of it: with equal-sized buffers, right after a trim to n seconds, an n-second
      clip is the last n seconds the device captured before the last buffer handed over, rounded up to
      whole buffers. */
  lemma ClipIsLatestCapture(limit: nat, c: Q.ClientId, rest: seq<Q.Label>, data: seq<seq<byte>>,
                            input: Properties, ops: seq<Op>, op: Op, n: nat, z: nat, memory: bool)
    requires var run := [Q.Register(c)] + rest;
      && Q.Legal(Q.Init(limit), run) && Q.Unregister(c) !in rest && QT.NeverOverflows(Q.Init(limit), run)
      && |data| == |QT.Added(run)| && forall i :: 0 <= i < |data| ==> |data[i]| == z
    requires var got := Q.Received(Q.Exec(Q.Init(limit), [Q.Register(c)] + rest), c);
      (forall k :: 0 <= k < |got| ==> got[k] < |data|) && Heard(ops) == Payloads(data, got)
    requires AllAllowed(ops) && Allowed(op) && (op.Tick? || op.SetPrecapture?) && z > 0
    requires var s := After(Start(input), ops); var t := Apply(s, op);
      && Bytes(s.queue) < I32_LIMIT && t.limit == n * DataRate(t.input) && Bytes(t.queue) >= t.limit
      && !DividesByZero(t.input, t.input)
    ensures var got := |Q.Received(Q.Exec(Q.Init(limit), [Q.Register(c)] + rest), c)|;
      var t := Apply(After(Start(input), ops), op);
      var size, k := n * DataRate(t.input), Steps(n * DataRate(t.input), z);
      && k <= got <= |data| && OpFor(t.input, t.input) == NoConversion
      && Converted(t.input, t.input, t.queue, size, memory) == Flatten(data[got-k..got])
  {
    hide Q.Legal, Q.Exec, Q.Received, QT.NeverOverflows, QT.Added, After, Apply, Start, Heard, DataRate, Bytes;
    hide Converted, Flatten, OpFor, Steps, DividesByZero;
    QueueIsLatestCapture(limit, c, rest, data, input, ops);
    var s := After(Start(input), ops);
    SameReceived(s, op);
    ClipIsLatest(input, ops, op, n, z, memory);
    var got, k := |s.received|, Steps(n * DataRate(Apply(s, op).input), z);
    assert data[..got][got-k..] == data[got-k..got];
  }

  // ----- memory -----

  /** The buffers client c gave back, in order. */
  function ReleasedBy(run: seq<Q.Label>, c: Q.ClientId): seq<Q.BufferId> {
    if run == [] then []
    else (if run[0].Release? && run[0].client == c then [run[0].buffer] else []) + ReleasedBy(run[1..], c)
  }

  lemma {:induction false} ReleaseIsListed(run: seq<Q.Label>, c: Q.ClientId, b: Q.BufferId)
    requires Q.Release(c, b) in run
    ensures b in ReleasedBy(run, c)
  {
    if run[0] != Q.Release(c, b) {
      ReleaseIsListed(run[1..], c, b);
    }
  }

  lemma HeldStep(s: Q.State, l: Q.Label, c: Q.ClientId, b: Q.BufferId)
    requires Q.Enabled(s, l) && l != Q.Release(c, b)
    ensures c in Q.Holders(s, b) ==> c in Q.Holders(Q.Next(s, l), b)
    ensures b in Q.Received(Q.Next(s, l), c) ==> b in Q.Received(s, c) || c in Q.Holders(Q.Next(s, l), b)
  {}

  /** What a client is handed it holds until it gives it back. */
  lemma {:induction false} HeldUntilReleased(s: Q.State, run: seq<Q.Label>, c: Q.ClientId, b: Q.BufferId)
    requires Q.Legal(s, run) && Q.Release(c, b) !in run
    ensures c in Q.Holders(s, b) ==> c in Q.Holders(Q.Exec(s, run), b)
    ensures b in Q.Received(Q.Exec(s, run), c) ==> b in Q.Received(s, c) || c in Q.Holders(Q.Exec(s, run), b)
    decreases run
  {
    if run != [] {
      hide Q.Next, Q.Holders, Q.Received;
      HeldStep(s, run[0], c, b);
      HeldUntilReleased(Q.Next(s, run[0]), run[1..], c, b);
    }
  }

  lemma NothingHanded(limit: nat, c: Q.ClientId)
    ensures Q.Received(Q.Init(limit), c) == []
  {}

  lemma PrefixDistinct(p: seq<nat>, q: seq<nat>)
    requires QI.Increasing(q) && p <= q
    ensures QI.Increasing(p)
  {}

  /** If the buffers the client gave back are those its history has released, then every buffer still in
      its queue is held by it and still allocated. */
  lemma QueuedIsAllocated(limit: nat, c: Q.ClientId, rest: seq<Q.Label>, data: seq<seq<byte>>,
                          input: Properties, ops: seq<Op>)
    requires Q.Legal(Q.Init(limit), [Q.Register(c)] + rest) && Q.Unregister(c) !in rest
    requires var got := Q.Received(Q.Exec(Q.Init(limit), [Q.Register(c)] + rest), c);
      && (forall k :: 0 <= k < |got| ==> got[k] < |data|) && Heard(ops) == Payloads(data, got)
      && |After(Start(input), ops).released| <= |got|
      && ReleasedBy([Q.Register(c)] + rest, c) == got[..|After(Start(input), ops).released|]
    ensures var t := Q.Exec(Q.Init(limit), [Q.Register(c)] + rest);
      var got, r := Q.Received(t, c), |After(Start(input), ops).released|;
      && After(Start(input), ops).queue == Payloads(data, got[r..])
      && forall k :: r <= k < |got| ==> c in Q.Holders(t, got[k]) && got[k] in t.refcount
  {
    hide Q.Legal, Q.Exec, Q.Received, Q.Holders, ReleasedBy, After, Start, Heard, QI.Increasing, QI.Inv;
    var run := [Q.Register(c)] + rest;
    var t := Q.Exec(Q.Init(limit), run);
    var got, s := Q.Received(t, c), After(Start(input), ops);
    var r := |s.released|;
    SuffixOfHistory(input, ops);
    LogFields(input, ops);
    assert s.received == Payloads(data, got);
    assert s.queue == s.received[r..] == Payloads(data, got[r..]);
    HandedFromTheFirst(limit, c, rest);
    QT.Reachable(limit, run);
    InvOrder(t);
    PrefixDistinct(got, t.processed + t.outgoing + t.incoming);
    forall k | r <= k < |got| ensures c in Q.Holders(t, got[k]) && got[k] in t.refcount {
      StillHeld(limit, run, c, got, r, k);
    }
  }

  lemma InvOrder(s: Q.State)
    requires QI.Inv(s)
    ensures QI.Increasing(s.processed + s.outgoing + s.incoming)
  {}

  lemma StillHeld(limit: nat, run: seq<Q.Label>, c: Q.ClientId, got: seq<nat>, r: nat, k: nat)
    requires Q.Legal(Q.Init(limit), run) && got == Q.Received(Q.Exec(Q.Init(limit), run), c)
    requires QI.Increasing(got) && r <= k < |got| && ReleasedBy(run, c) == got[..r]
    ensures var t := Q.Exec(Q.Init(limit), run); c in Q.Holders(t, got[k]) && got[k] in t.refcount
  {
    assert got[k] !in got[..r];
    hide Q.Legal, Q.Exec, Q.Received, Q.Holders, ReleasedBy;
    if Q.Release(c, got[k]) in run { ReleaseIsListed(run, c, got[k]); }
    NothingHanded(limit, c);
    HeldUntilReleased(Q.Init(limit), run, c, got[k]);
    QT.Reachable(limit, run);
    QI.HeldIsCounted(Q.Exec(Q.Init(limit), run), c, got[k]);
  }
}
