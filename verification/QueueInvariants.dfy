/** What every step of the queue protocol keeps. */
module QueueInvariants {
  import opened QueueProtocol

  // ----- wakeups -----

  ghost predicate WakeInv(s: State) {
    match s.pc
    case Blocked =>
      && s.outgoing == []
      && (if s.notify then s.incoming == [] && s.semaphore == 0 else s.incoming != [] && s.semaphore == 1)
    case Woken => s.outgoing == [] && s.incoming != [] && !s.notify && s.semaphore == 0
    case _ => !s.notify && s.semaphore == 0
  }

  lemma WakeStep(s: State, l: Label)
    requires WakeInv(s) && Enabled(s, l)
    ensures WakeInv(Next(s, l))
  {}

  // ----- order -----

  ghost predicate Increasing(q: seq<BufferId>) {
    forall i, j :: 0 <= i < j < |q| ==> q[i] < q[j]
  }

  function Stream(s: State): seq<BufferId> {
    s.processed + s.outgoing + s.incoming
  }

  function Upto(n: nat): seq<nat> { seq(n, i => i) }

  /** Every buffer of every batch, and the buffers of the batches the consumer took. */
  function AllIds(batches: seq<Batch>): seq<BufferId> {
    if batches == [] then [] else AllIds(batches[..|batches|-1]) + batches[|batches|-1].ids
  }

  function TakenIds(batches: seq<Batch>): seq<BufferId> {
    if batches == [] then []
    else TakenIds(batches[..|batches|-1]) + (if batches[|batches|-1].Taken? then batches[|batches|-1].ids else [])
  }

  ghost predicate OrderInv(s: State) {
    && Increasing(Stream(s))
    && (forall k :: 0 <= k < |Stream(s)| ==> Stream(s)[k] < |s.sizes|)
    && AllIds(s.batches) + s.incoming == Upto(|s.sizes|)
    && TakenIds(s.batches) == s.processed + s.outgoing
    && (forall k :: 0 <= k < |s.batches| && s.batches[k].Overflowed? ==> |s.batches[k].ids| > s.batches[k].limit)
  }

  lemma BatchAppended(batches: seq<Batch>, b: Batch)
    ensures AllIds(batches + [b]) == AllIds(batches) + b.ids
    ensures TakenIds(batches + [b]) == TakenIds(batches) + (if b.Taken? then b.ids else [])
  {
    assert (batches + [b])[..|batches|] == batches;
  }

  lemma IncreasingAppend(q: seq<BufferId>, k: nat, b: BufferId)
    requires Increasing(q) && k <= |q| && forall i :: 0 <= i < |q| ==> q[i] < b
    ensures Increasing(q[..k] + [b])
  {}

  lemma AddHistory(s: State, size: nat)
    requires AllIds(s.batches) + s.incoming == Upto(|s.sizes|)
    ensures var t := AddStep(s, size);
      && AllIds(t.batches) + t.incoming == Upto(|t.sizes|)
      && TakenIds(t.batches) == TakenIds(s.batches)
  {
    hide AllIds, TakenIds;
    var n, all := |s.sizes|, AllIds(s.batches);
    BatchAppended(s.batches, Overflowed(s.incoming, s.limit));
    assert Upto(n + 1) == Upto(n) + [n];
    hide Upto;
    assert all + s.incoming + [n] == all + (s.incoming + [n]);
    if !Overflows(s) { assert AddStep(s, size).incoming == s.incoming + [n]; }
  }

  lemma AddStream(s: State, size: nat)
    requires Increasing(Stream(s)) && forall k :: 0 <= k < |Stream(s)| ==> Stream(s)[k] < |s.sizes|
    ensures var t := AddStep(s, size);
      && Increasing(Stream(t)) && forall k :: 0 <= k < |Stream(t)| ==> Stream(t)[k] < |t.sizes|
  {
    var t := AddStep(s, size);
    var k := |s.processed + s.outgoing + Kept(s)|;
    assert Stream(t) == Stream(s)[..k] + [|s.sizes|];
    IncreasingAppend(Stream(s), k, |s.sizes|);
  }

  lemma OrderAdd(s: State, size: nat)
    requires OrderInv(s)
    ensures OrderInv(AddStep(s, size))
  {
    AddHistory(s, size);
    AddStream(s, size);
    AddBatches(s, size);
    var t := AddStep(s, size);
    assert t.processed + t.outgoing == s.processed + s.outgoing;
    hide Increasing, Stream, AllIds, TakenIds, Upto, AddStep;
  }

  lemma AddBatches(s: State, size: nat)
    requires forall k :: 0 <= k < |s.batches| && s.batches[k].Overflowed? ==> |s.batches[k].ids| > s.batches[k].limit
    ensures var t := AddStep(s, size);
      forall k :: 0 <= k < |t.batches| && t.batches[k].Overflowed? ==> |t.batches[k].ids| > t.batches[k].limit
  {}

  lemma OrderSwap(s: State)
    requires OrderInv(s) && s.outgoing == []
    ensures OrderInv(Swap(s)) && Stream(Swap(s)) == Stream(s)
  {
    BatchAppended(s.batches, Taken(s.incoming));
    assert s.processed + [] + s.incoming == s.processed + s.incoming + [];
    assert AllIds(Swap(s).batches) + [] == AllIds(s.batches) + s.incoming;
  }

  lemma OrderStep(s: State, l: Label)
    requires WakeInv(s) && OrderInv(s) && Enabled(s, l)
    ensures OrderInv(Next(s, l))
  {
    match l
    case Add(size) => OrderAdd(s, size);
    case QueueSection => if s.incoming != [] { OrderSwap(s); }
    case SwapWoken => OrderSwap(s);
    case ClearOutgoing => assert Stream(Next(s, l)) == Stream(s);
    case _ => assert Stream(Next(s, l)) == Stream(s);
  }

  // ----- the bound on the incoming queue -----

  ghost predicate BoundInv(s: State) {
    |s.incoming| <= s.highestLimit + 1 && s.limit <= s.highestLimit
  }

  lemma BoundStep(s: State, l: Label)
    requires BoundInv(s) && Enabled(s, l)
    ensures BoundInv(Next(s, l))
  {}

  // ----- clients -----

  ghost predicate NoDup<T>(q: seq<T>) {
    forall i, j :: 0 <= i < j < |q| ==> q[i] != q[j]
  }

  ghost predicate ClientInv(s: State) {
    && NoDup(s.clients)
    && (s.started <==> s.clients != [])
    && (s.pc.Pass? ==>
      && s.outgoing != [] && s.pc.buffer <= |s.outgoing|
      && (s.pc.client == 0 || (s.pc.client < |s.clients| && s.pc.buffer < |s.outgoing|)))
  }

  lemma {:induction false} WithoutIsRemoval(q: seq<ClientId>, c: ClientId)
    ensures forall x :: x in Without(q, c) <==> x in q && x != c
    ensures NoDup(q) ==> NoDup(Without(q, c))
    ensures c !in q ==> Without(q, c) == q
  {
    if q != [] {
      WithoutIsRemoval(q[1..], c);
      var r := Without(q[1..], c);
      assert forall x :: x in q <==> x == q[0] || x in q[1..];
      if NoDup(q) {
        assert q[0] !in q[1..];
        assert q[0] !in r;
      }
    }
  }

  lemma ClientStep(s: State, l: Label)
    requires ClientInv(s) && Enabled(s, l)
    ensures ClientInv(Next(s, l))
  {
    match l
    case Unregister(c) => UnregisterKeepsClients(s, c);
    case Add(_) | Release(_, _) =>
      var t := Next(s, l);
      assert t.clients == s.clients && t.started == s.started && t.pc == s.pc && t.outgoing == s.outgoing;
    case _ =>
  }

  lemma UnregisterKeepsClients(s: State, c: ClientId)
    requires ClientInv(s) && !s.pc.Pass?
    ensures ClientInv(UnregisterStep(s, c))
  {
    WithoutIsRemoval(s.clients, c);
    if Without(s.clients, c) != [] { assert Without(s.clients, c)[0] in s.clients; }
  }

  // ----- lifetimes -----

  /** A buffer no delivery pass has reached yet. */
  ghost predicate Waiting(s: State, b: BufferId) {
    b in s.refcount && Holders(s, b) == {} && b !in s.leaked
  }

  /** A buffer whose delivery pass has begun and which `undelivered` clients are still to get:
      allocated while anyone is owed it (or its pass had no client), and counted exactly. */
  ghost predicate Handed(s: State, b: BufferId, undelivered: nat) {
    && (b in s.refcount <==> |Holders(s, b)| + undelivered > 0 || b in s.leaked)
    && (b in s.refcount ==> s.refcount[b] == |Holders(s, b)| + undelivered)
    && (b in s.leaked ==> Holders(s, b) == {} && undelivered == 0)
  }

  function Undelivered(s: State, k: nat): nat {
    if !s.pc.Pass? || k < s.pc.buffer then 0
    else if k > s.pc.buffer then |s.clients|
    else if s.pc.client <= |s.clients| then |s.clients| - s.pc.client else 0
  }

  predicate InPass(s: State) { s.pc.Pass? || s.pc.Clear? }

  ghost predicate LocationInv(s: State) {
    && (forall k :: 0 <= k < |s.incoming| ==> Waiting(s, s.incoming[k]))
    && (forall k :: 0 <= k < |s.outgoing| ==>
          if InPass(s) then Handed(s, s.outgoing[k], Undelivered(s, k)) else Waiting(s, s.outgoing[k]))
    && (forall k :: 0 <= k < |s.processed| ==> Handed(s, s.processed[k], 0))
  }

  /** Nobody holds what the current pass has yet to deliver to them. */
  ghost predicate FreshInv(s: State) {
    s.pc.Pass? ==>
      forall k, m ::
        s.pc.buffer <= k < |s.outgoing| && 0 <= m < |s.clients| && (k > s.pc.buffer || m >= s.pc.client)
        ==> s.clients[m] !in Holders(s, s.outgoing[k])
  }

  /** Only buffers still in a queue or processed are allocated, and only delivered ones held. */
  ghost predicate HeldInv(s: State) {
    && (forall b :: b in s.refcount ==> b < |s.sizes| && b in Stream(s))
    && (forall b :: b in s.holders ==> b < |s.sizes|)
    && (forall b :: b in s.leaked ==> b in s.processed || b in s.outgoing)
    && (forall b :: Holders(s, b) != {} ==> b in s.processed || b in s.outgoing)
  }

  /** Every buffer ever added is allocated or has been freed once. */
  ghost predicate FreedInv(s: State) {
    && (forall b :: 0 <= b < |s.sizes| ==> (b in s.refcount <==> b !in s.freed))
    && (forall b :: b in s.freed ==> b < |s.sizes|)
    && NoDup(s.freed)
  }

  ghost predicate AccountInv(s: State) {
    HeldInv(s) && FreedInv(s)
  }

  ghost predicate LifeInv(s: State) {
    LocationInv(s) && FreshInv(s) && AccountInv(s)
  }

  ghost predicate Inv(s: State) {
    WakeInv(s) && OrderInv(s) && BoundInv(s) && ClientInv(s) && LifeInv(s)
  }

  /** Ids in the three queues are distinct and already issued. */
  lemma Distinct(s: State)
    requires OrderInv(s)
    ensures NoDup(s.incoming) && NoDup(s.outgoing) && NoDup(s.processed)
    ensures forall b :: b in s.incoming ==> b < |s.sizes| && b !in s.outgoing && b !in s.processed
    ensures forall b :: b in s.outgoing ==> b < |s.sizes| && b !in s.processed
    ensures forall b :: b in s.processed ==> b < |s.sizes|
    ensures forall b :: b in Stream(s) <==> b in s.processed || b in s.outgoing || b in s.incoming
  {
    var p := |s.processed|;
    var o := |s.outgoing|;
    assert forall k :: 0 <= k < p ==> s.processed[k] == Stream(s)[k];
    assert forall k :: 0 <= k < o ==> s.outgoing[k] == Stream(s)[p + k];
    assert forall k :: 0 <= k < |s.incoming| ==> s.incoming[k] == Stream(s)[p + o + k];
  }

  lemma AddFrame(s: State, size: nat)
    requires OrderInv(s)
    ensures var t := AddStep(s, size);
      && t.incoming == Kept(s) + [|s.sizes|] && t.outgoing == s.outgoing && t.processed == s.processed
      && t.holders == s.holders && t.leaked == s.leaked && t.clients == s.clients && t.pc == s.pc
      && |t.sizes| == |s.sizes| + 1
      && t.freed == s.freed + (if s.limit < |s.incoming| then s.incoming else [])
      && |s.sizes| in t.refcount
      && forall b :: b != |s.sizes| ==>
        && (b in t.refcount <==> b in s.refcount && (b !in s.incoming || b in Kept(s)))
        && (b in t.refcount ==> t.refcount[b] == s.refcount[b])
  {
    Distinct(s);
  }

  lemma LocationAdd(s: State, size: nat)
    requires OrderInv(s) && LocationInv(s) && AccountInv(s)
    ensures LocationInv(AddStep(s, size))
  {
    Distinct(s);
    AddFrame(s, size);
    var t := AddStep(s, size);
    forall k | 0 <= k < |t.incoming| ensures Waiting(t, t.incoming[k]) {
      if k < |Kept(s)| { assert Waiting(s, s.incoming[k]); }
    }
    forall k | 0 <= k < |t.outgoing|
      ensures if InPass(t) then Handed(t, t.outgoing[k], Undelivered(t, k)) else Waiting(t, t.outgoing[k])
    {
      assert s.outgoing[k] !in s.incoming;
      assert s.outgoing[k] != |s.sizes|;
      assert Undelivered(s, k) == Undelivered(t, k);
    }
    forall k | 0 <= k < |t.processed| ensures Handed(t, t.processed[k], 0) {
      assert s.processed[k] !in s.incoming;
      assert s.processed[k] != |s.sizes|;
      assert Handed(s, s.processed[k], 0);
    }
  }

  lemma HeldAdd(s: State, size: nat)
    requires OrderInv(s) && HeldInv(s)
    ensures HeldInv(AddStep(s, size))
  {
    Distinct(s);
    AddFrame(s, size);
    var t := AddStep(s, size);
    assert t.incoming[|Kept(s)|] == |s.sizes|;
    InStream(t);
    hide AddStep, Stream, OrderInv;
    forall b | b in t.refcount ensures b < |t.sizes| && b in Stream(t) {
      if b != |s.sizes| {
        assert b in Kept(s) ==> b in t.incoming;
      }
    }
    assert forall b :: Holders(t, b) == Holders(s, b);
  }

  lemma InStream(s: State)
    ensures forall b :: b in s.processed || b in s.outgoing || b in s.incoming ==> b in Stream(s)
  {}

  lemma FreedAdd(s: State, size: nat)
    requires OrderInv(s) && FreedInv(s) && forall b :: b in s.incoming ==> b in s.refcount
    ensures FreedInv(AddStep(s, size))
  {
    Distinct(s);
    AddFrame(s, size);
    var t := AddStep(s, size);
    hide AddStep, Stream, OrderInv;
    NoDupJoin(s.freed, Flushed(s));
    assert t.freed == s.freed + Flushed(s);
  }

  lemma NoDupJoin<T>(a: seq<T>, b: seq<T>)
    requires NoDup(a) && NoDup(b) && forall x :: x in b ==> x !in a
    ensures NoDup(a + b)
  {
    forall i, j | 0 <= i < j < |a + b| ensures (a + b)[i] != (a + b)[j] {
      if i < |a| <= j { assert b[j - |a|] in b; }
    }
  }

  lemma LifeAdd(s: State, size: nat)
    requires OrderInv(s) && LifeInv(s)
    ensures LifeInv(AddStep(s, size))
  {
    LocationAdd(s, size);
    HeldAdd(s, size);
    assert forall k :: 0 <= k < |s.incoming| ==> Waiting(s, s.incoming[k]);
    FreedAdd(s, size);
    FreshAdd(s, size);
    hide LocationInv, HeldInv, FreedInv, FreshInv, AddStep, OrderInv;
  }

  lemma FreshAdd(s: State, size: nat)
    requires FreshInv(s)
    ensures FreshInv(AddStep(s, size))
  {
    var t := AddStep(s, size);
    assert t.outgoing == s.outgoing && t.clients == s.clients && t.pc == s.pc && t.holders == s.holders;
  }

  lemma LifeSwap(s: State)
    requires OrderInv(s) && LifeInv(s) && s.outgoing == [] && !InPass(s)
    ensures LifeInv(Swap(s).(pc := Check))
  {
    var t := Swap(s).(pc := Check);
    assert t.refcount == s.refcount && t.freed == s.freed;
    OrderSwap(s);
    assert Stream(t) == Stream(s);
    assert forall b :: Holders(t, b) == Holders(s, b);
  }

  lemma LocationBegin(s: State)
    requires OrderInv(s) && LocationInv(s) && Enabled(s, BeginPass)
    ensures LocationInv(Next(s, BeginPass))
  {
    Distinct(s);
    var t := Next(s, BeginPass);
    forall k | 0 <= k < |t.outgoing| ensures Handed(t, t.outgoing[k], Undelivered(t, k)) {
      assert Waiting(s, s.outgoing[k]);
      assert Undelivered(t, k) == |s.clients|;
    }
    forall k | 0 <= k < |t.processed| ensures Handed(t, t.processed[k], 0) {
      assert Handed(s, s.processed[k], 0);
      assert s.processed[k] !in s.outgoing;
    }
    forall k | 0 <= k < |t.incoming| ensures Waiting(t, t.incoming[k]) {
      assert Waiting(s, s.incoming[k]);
      assert s.incoming[k] !in s.outgoing;
    }
  }

  lemma LifeBegin(s: State)
    requires OrderInv(s) && LifeInv(s) && Enabled(s, BeginPass)
    ensures LifeInv(Next(s, BeginPass))
  {
    LocationBegin(s);
    Distinct(s);
    var t := Next(s, BeginPass);
    assert forall k :: 0 <= k < |s.outgoing| ==> Waiting(s, s.outgoing[k]);
    assert t.refcount.Keys == s.refcount.Keys;
    assert Stream(t) == Stream(s);
    assert forall b :: Holders(t, b) == Holders(s, b);
  }

  /** Nothing that decides a buffer's fate differs between the two states. */
  ghost predicate SameBuffer(s: State, t: State, b: BufferId) {
    && Holders(t, b) == Holders(s, b)
    && (b in t.refcount <==> b in s.refcount)
    && (b in s.refcount ==> t.refcount[b] == s.refcount[b])
    && (b in t.leaked <==> b in s.leaked)
  }

  /** A step that changes one handed buffer only. */
  lemma OneBufferStep(s: State, t: State, b: BufferId)
    requires LocationInv(s) && InPass(s) == InPass(t)
    requires t.incoming == s.incoming && t.outgoing == s.outgoing && t.processed == s.processed
    requires forall x :: x != b ==> SameBuffer(s, t, x)
    requires b !in s.incoming && (b in s.outgoing ==> InPass(s))
    requires forall k :: 0 <= k < |s.outgoing| && s.outgoing[k] != b ==> Undelivered(t, k) == Undelivered(s, k)
    requires forall k :: 0 <= k < |s.outgoing| && s.outgoing[k] == b ==> Handed(t, b, Undelivered(t, k))
    requires b in s.processed ==> Handed(t, b, 0)
    ensures LocationInv(t)
  {
    forall k | 0 <= k < |t.outgoing|
      ensures if InPass(t) then Handed(t, t.outgoing[k], Undelivered(t, k)) else Waiting(t, t.outgoing[k])
    {
      if t.outgoing[k] != b {
        assert SameBuffer(s, t, t.outgoing[k]);
        if InPass(s) { assert Handed(s, s.outgoing[k], Undelivered(s, k)); } else { assert Waiting(s, s.outgoing[k]); }
      }
    }
    forall k | 0 <= k < |t.processed| ensures Handed(t, t.processed[k], 0) {
      if t.processed[k] != b {
        assert SameBuffer(s, t, t.processed[k]);
        assert Handed(s, s.processed[k], 0);
      }
    }
    forall k | 0 <= k < |t.incoming| ensures Waiting(t, t.incoming[k]) {
      assert SameBuffer(s, t, t.incoming[k]);
      assert Waiting(s, s.incoming[k]);
    }
  }

  lemma LocationDeliver(s: State)
    requires OrderInv(s) && LocationInv(s) && FreshInv(s) && Enabled(s, Deliver)
    ensures LocationInv(Next(s, Deliver))
  {
    Distinct(s);
    var t := Next(s, Deliver);
    var i := s.pc.buffer;
    var b := s.outgoing[i];
    var c := s.clients[s.pc.client];
    assert c !in Holders(s, b);
    assert Holders(t, b) == Holders(s, b) + {c};
    assert Handed(s, b, Undelivered(s, i));
    assert Undelivered(t, i) == Undelivered(s, i) - 1;
    assert Handed(t, b, Undelivered(t, i));
    OneBufferStep(s, t, b);
  }

  lemma FreshDeliver(s: State)
    requires OrderInv(s) && FreshInv(s) && ClientInv(s) && Enabled(s, Deliver)
    ensures FreshInv(Next(s, Deliver))
  {
    Distinct(s);
    var t := Next(s, Deliver);
    var b := s.outgoing[s.pc.buffer];
    assert forall x :: x != b ==> Holders(t, x) == Holders(s, x);
    assert forall k :: s.pc.buffer < k < |s.outgoing| ==> s.outgoing[k] != b;
  }

  lemma LifeDeliver(s: State)
    requires OrderInv(s) && LifeInv(s) && ClientInv(s) && Enabled(s, Deliver)
    ensures LifeInv(Next(s, Deliver))
  {
    LocationDeliver(s);
    FreshDeliver(s);
    Distinct(s);
    var t := Next(s, Deliver);
    assert Stream(t) == Stream(s);
    assert forall x :: x != s.outgoing[s.pc.buffer] ==> Holders(t, x) == Holders(s, x);
  }

  lemma {:induction false} SubsetSize<T>(a: set<T>, b: set<T>)
    requires a <= b
    ensures |a| <= |b|
  {
    if a != {} {
      var x :| x in a;
      SubsetSize(a - {x}, b - {x});
    }
  }

  /** A held buffer's pass has begun, so it is counted and its holders are part of the count. */
  lemma HeldIsCounted(s: State, c: ClientId, b: BufferId)
    requires LifeInv(s) && OrderInv(s) && c in Holders(s, b)
    ensures b in s.refcount && s.refcount[b] >= |Holders(s, b)| >= 1
    ensures b !in s.incoming && b !in s.freed && b !in s.leaked && b < |s.sizes|
  {
    Distinct(s);
    SubsetSize({c}, Holders(s, b));
  }

  lemma LocationRelease(s: State, c: ClientId, b: BufferId)
    requires OrderInv(s) && LifeInv(s) && c in Holders(s, b)
    ensures LocationInv(ReleaseStep(s, c, b))
  {
    HeldIsCounted(s, c, b);
    var t := ReleaseStep(s, c, b);
    assert Holders(t, b) == Holders(s, b) - {c};
    assert |Holders(t, b)| == |Holders(s, b)| - 1;
    forall k | 0 <= k < |s.outgoing| && s.outgoing[k] == b ensures Handed(t, b, Undelivered(t, k)) {
      assert Handed(s, s.outgoing[k], Undelivered(s, k));
      assert Undelivered(t, k) == Undelivered(s, k);
    }
    if b in s.processed { assert Handed(s, b, 0); }
    OneBufferStep(s, t, b);
  }

  lemma LifeRelease(s: State, c: ClientId, b: BufferId)
    requires OrderInv(s) && LifeInv(s) && c in Holders(s, b)
    ensures LifeInv(ReleaseStep(s, c, b))
  {
    LocationRelease(s, c, b);
    HeldIsCounted(s, c, b);
    Distinct(s);
    var t := ReleaseStep(s, c, b);
    assert Stream(t) == Stream(s);
    assert forall x :: x != b ==> Holders(t, x) == Holders(s, x) && (x in t.refcount <==> x in s.refcount);
  }

  lemma LifeClear(s: State)
    requires OrderInv(s) && LifeInv(s) && Enabled(s, ClearOutgoing)
    ensures LifeInv(Next(s, ClearOutgoing))
  {
    var t := Next(s, ClearOutgoing);
    assert Stream(t) == Stream(s);
    assert forall b :: Holders(t, b) == Holders(s, b);
    forall k | 0 <= k < |t.processed| ensures Handed(t, t.processed[k], 0) {
      if k < |s.processed| {
        assert Handed(s, s.processed[k], 0);
      } else {
        assert Handed(s, s.outgoing[k - |s.processed|], Undelivered(s, k - |s.processed|));
      }
    }
    forall b | Holders(t, b) != {} ensures b in t.processed {
      assert b in s.processed || b in s.outgoing;
    }
  }

  /** Steps that leave queues, counts and holders alone. */
  lemma LifeFrame(s: State, t: State)
    requires LifeInv(s)
    requires t.incoming == s.incoming && t.outgoing == s.outgoing && t.processed == s.processed
    requires t.refcount == s.refcount && t.holders == s.holders && t.leaked == s.leaked
    requires t.freed == s.freed && t.sizes == s.sizes
    requires InPass(s) == InPass(t) && (t.pc.Pass? ==> t.pc == s.pc && t.clients == s.clients)
    requires forall k :: 0 <= k < |s.outgoing| ==> Undelivered(s, k) == Undelivered(t, k)
    ensures LifeInv(t)
  {
    assert Stream(t) == Stream(s);
    assert forall b :: Holders(t, b) == Holders(s, b);
    forall k | 0 <= k < |t.outgoing|
      ensures if InPass(t) then Handed(t, t.outgoing[k], Undelivered(t, k)) else Waiting(t, t.outgoing[k])
    {
      if InPass(s) { assert Handed(s, s.outgoing[k], Undelivered(s, k)); } else { assert Waiting(s, s.outgoing[k]); }
    }
    forall k | 0 <= k < |t.processed| ensures Handed(t, t.processed[k], 0) {
      assert Handed(s, s.processed[k], 0);
    }
    forall k | 0 <= k < |t.incoming| ensures Waiting(t, t.incoming[k]) {
      assert Waiting(s, s.incoming[k]);
    }
  }

  lemma LifeStep(s: State, l: Label)
    requires Inv(s) && Enabled(s, l)
    ensures LifeInv(Next(s, l))
  {
    match l
    case Add(size) => LifeAdd(s, size);
    case QueueSection => if s.incoming != [] { LifeSwap(s); } else { LifeFrame(s, Next(s, l)); }
    case SwapWoken => LifeSwap(s);
    case BeginPass => LifeBegin(s);
    case Deliver => LifeDeliver(s);
    case ClearOutgoing => LifeClear(s);
    case Release(c, b) => LifeRelease(s, c, b);
    case _ => LifeFrame(s, Next(s, l));
  }

  lemma Step(s: State, l: Label)
    requires Inv(s) && Enabled(s, l)
    ensures Inv(Next(s, l))
  {
    WakeStep(s, l);
    OrderStep(s, l);
    BoundStep(s, l);
    ClientStep(s, l);
    LifeStep(s, l);
  }

  lemma InitInv(limit: nat)
    ensures Inv(Init(limit))
  {
    assert Upto(0) == [];
  }

  /** Every reachable state satisfies the invariant. */
  lemma {:induction false} RunInv(s: State, run: seq<Label>)
    requires Inv(s) && Legal(s, run)
    ensures Inv(Exec(s, run))
    decreases run
  {
    if run != [] {
      Step(s, run[0]);
      RunInv(Next(s, run[0]), run[1..]);
    }
  }
}
