/** q_mgr and the audio buffers it hands out, as the source writes them: fields updated in place.
    Each method is one or more critical sections; the ghost field `st` follows the protocol's steps,
    so the theorems about runs apply to the objects. */
module QueueManager {
  import opened AudioProperties
  import opened QueueProtocol
  import opened QueueInvariants
  import opened QueueTheorems

  /** The heap of audio_buffer objects: a buffer is allocated while its key is present, and
      touching an absent one would be a use after free, which every precondition rules out. */
  class BufferPool {
    var refcount: map<BufferId, nat>
    var next: BufferId

    constructor ()
      ensures refcount == map[] && next == 0
    {
      refcount, next := map[], 0;
    }

    method Create(count: nat) returns (b: BufferId)
      modifies this
      ensures b == old(next) && next == b + 1 && refcount == old(refcount)[b := count]
    {
      b := next;
      refcount := refcount[b := count];
      next := next + 1;
    }

    method Free(b: BufferId)
      requires b in refcount
      modifies this`refcount
      ensures refcount == Minus(old(refcount), [b])
    {
      refcount := map x | x in refcount && x != b :: refcount[x];
    }

    method SetRef(b: BufferId, count: nat)
      requires b in refcount
      modifies this`refcount
      ensures refcount == old(refcount)[b := count]
    {
      refcount := refcount[b := count];
    }

    method UnrefBuffer(b: BufferId)
      requires b in refcount
      modifies this`refcount
      ensures refcount == Unref(old(refcount), b)
      ensures b in refcount <==> old(refcount)[b] != 1
      ensures b in refcount ==> refcount[b] == if old(refcount)[b] == 0 then 0xFFFF_FFFF else old(refcount)[b] - 1
    {
      if refcount[b] == 1 {
        Free(b);
      } else {
        refcount := refcount[b := if refcount[b] == 0 then U32 - 1 else refcount[b] - 1];
      }
    }
  }

  function Repeat(l: Label, n: nat): seq<Label> {
    seq(n, _ => l)
  }

  /** One uninterrupted delivery pass over n buffers and m clients. */
  function PassRun(n: nat, m: nat): seq<Label> {
    [BeginPass] + Repeat(Deliver, n * m) + [Unlock, ClearOutgoing]
  }

  /** The part of a pass done when buffer i is about to reach client j of m. */
  function PassPrefix(i: nat, j: nat, m: nat): seq<Label> {
    [BeginPass] + Repeat(Deliver, i * m + j)
  }

  lemma PassBegins(s: State, m: nat)
    requires Enabled(s, BeginPass)
    ensures Legal(s, PassPrefix(0, 0, m)) && Exec(s, PassPrefix(0, 0, m)) == Next(s, BeginPass)
  {
    assert PassPrefix(0, 0, m) == [BeginPass] && [BeginPass][1..] == [];
  }

  lemma PassContinues(s: State, t: State, i: nat, j: nat, m: nat)
    requires Legal(s, PassPrefix(i, j, m)) && Exec(s, PassPrefix(i, j, m)) == t && Enabled(t, Deliver)
    ensures Legal(s, PassPrefix(i, j + 1, m)) && Exec(s, PassPrefix(i, j + 1, m)) == Next(t, Deliver)
  {
    assert PassPrefix(i, j + 1, m) == PassPrefix(i, j, m) + [Deliver];
    hide PassPrefix, Legal, Exec, Next;
    ExecAppend(s, PassPrefix(i, j, m), Deliver);
  }

  lemma PrefixRow(i: nat, m: nat)
    ensures PassPrefix(i, m, m) == PassPrefix(i + 1, 0, m)
  {
    assert (i + 1) * m == i * m + m;
  }

  lemma PassEnds(s: State, n: nat, m: nat)
    requires Legal(s, PassPrefix(n, 0, m)) && Enabled(Exec(s, PassPrefix(n, 0, m)), Unlock)
    ensures Legal(s, PassRun(n, m))
    ensures var t := Next(Exec(s, PassPrefix(n, 0, m)), Unlock);
      Enabled(t, ClearOutgoing) && Exec(s, PassRun(n, m)) == Next(t, ClearOutgoing)
  {
    var p := PassPrefix(n, 0, m);
    ExecAppend(s, p, Unlock);
    ExecAppend(s, p + [Unlock], ClearOutgoing);
    assert PassRun(n, m) == p + [Unlock] + [ClearOutgoing];
  }

  lemma PassDelivers(s: State, t: State)
    requires IsReachable(s) && s.pc == Check && t.pc == Check && t.outgoing == [] && t.processed == s.processed + s.outgoing
    requires Legal(s, PassRun(|s.outgoing|, |s.clients|)) && Exec(s, PassRun(|s.outgoing|, |s.clients|)) == t
    ensures forall c :: c in s.clients ==> Received(t, c) == Received(s, c) + s.outgoing
  {
    ReachableInv(s);
    forall c | c in s.clients ensures Received(t, c) == Received(s, c) + s.outgoing {
      RegisteredClientSeesAll(s, PassRun(|s.outgoing|, |s.clients|), c);
      assert Seen(s, c) == s.processed && Seen(t, c) == s.processed + s.outgoing;
    }
  }

  lemma WokenHasData(s: State)
    requires IsReachable(s) && s.pc == Woken
    ensures s.outgoing == [] && s.incoming != []
  {
    ReachableInv(s);
  }

  lemma OutgoingAllocated(s: State)
    requires IsReachable(s) && Enabled(s, BeginPass)
    ensures forall k :: 0 <= k < |s.outgoing| ==> s.outgoing[k] in s.refcount
  {
    ReachableInv(s);
    assert forall k :: 0 <= k < |s.outgoing| ==> Waiting(s, s.outgoing[k]);
  }

  /** The incoming queue holds thirty seconds of thresholds. */
  predicate RightSize(maxQueueSize: nat, bytesPerSecond: nat, threshold: nat) {
    threshold > 0 && maxQueueSize == 30 * bytesPerSecond / threshold
  }

  lemma SizeOf(p: Properties, maxQueueSize: nat)
    requires p.threshold > 0 && maxQueueSize == MaxQueueSize(p)
    ensures RightSize(maxQueueSize, DataRate(p), p.threshold)
  {
    hide DataRate, MaxQueueSize;
    QueueSizeIsExact(p);
  }

  /** What the capture device was last told. */
  datatype Device = Stopped | Running(settings: Properties)

  class QMgr {
    const pool: BufferPool
    var incoming: seq<BufferId>
    var outgoing: seq<BufferId>
    var notifyNewData: bool
    var semaphore: nat
    var clients: seq<ClientId>
    var numClients: nat
    var started: bool
    var device: Device
    var properties: Properties
    var bytesPerSecond: nat
    var maxQueueSize: nat
    var handed: map<ClientId, seq<BufferId>>   // the data_callback calls each client has had
    var events: seq<ClientId>                  // the notify_event calls made, by client
    ghost var st: State

    /** The fields are the queue part of the protocol state. */
    ghost predicate Agrees()
      reads this, pool
    {
      && st.incoming == incoming && st.outgoing == outgoing
      && st.notify == notifyNewData && st.semaphore == semaphore && st.limit == maxQueueSize
      && st.clients == clients && numClients == |clients| && st.started == started
      && st.refcount == pool.refcount && |st.sizes| == pool.next && st.received == handed
    }

    ghost predicate Valid()
      reads this, pool
    {
      && Agrees() && IsReachable(st) && bytesPerSecond == DataRate(properties) && DeviceFollows()
      && RightSize(maxQueueSize, bytesPerSecond, properties.threshold)
    }

    /** A started device runs with the current properties. */
    ghost predicate DeviceFollows()
      reads this
    {
      device == if started then Running(properties) else Stopped
    }

    constructor (defaults: Properties)
      requires defaults.threshold > 0
      ensures Valid() && fresh(pool)
      ensures st == Init(MaxQueueSize(defaults)) && properties == defaults
    {
      pool := new BufferPool();
      incoming, outgoing, notifyNewData, semaphore := [], [], false, 0;
      clients, numClients, started, device, handed, events := [], 0, false, Stopped, map[], [];
      properties := defaults;
      bytesPerSecond := DataRate(defaults);
      maxQueueSize := MaxQueueSize(defaults);
      st := Init(MaxQueueSize(defaults));
      InitReachable(MaxQueueSize(defaults));
      SizeOf(defaults, MaxQueueSize(defaults));
    }

    method FlushQueue(q: seq<BufferId>)
      requires NoDup(q) && forall k :: 0 <= k < |q| ==> q[k] in pool.refcount
      modifies pool`refcount
      ensures pool.refcount == Minus(old(pool.refcount), q)
    {
      var i := 0;
      while i < |q|
        invariant 0 <= i <= |q|
        invariant pool.refcount == Minus(old(pool.refcount), q[..i])
      {
        assert q[i] !in q[..i];
        pool.Free(q[i]);
        assert q[..i+1] == q[..i] + [q[i]];
        i := i + 1;
      }
      assert q[..i] == q;
    }

    method NotifyDataReady()
      modifies this`notifyNewData, this`semaphore
      ensures !notifyNewData
      ensures semaphore == old(semaphore) + (if old(notifyNewData) then 1 else 0)
    {
      if notifyNewData {
        semaphore := semaphore + 1;
        notifyNewData := false;
      }
    }

    /** The body of add_data, between lock and unlock. */
    method AddDataLocked(size: nat)
      requires Agrees()
      requires NoDup(incoming) && forall k :: 0 <= k < |incoming| ==> incoming[k] in pool.refcount
      requires pool.next !in incoming
      modifies this, pool
      ensures Agrees() && st == AddStep(old(st), size)
      ensures properties == old(properties) && bytesPerSecond == old(bytesPerSecond) && events == old(events)
      ensures started == old(started) && device == old(device) && maxQueueSize == old(maxQueueSize)
    {
      ghost var s := st;
      var temp := pool.Create(numClients);
      if maxQueueSize < |incoming| {
        FlushQueue(incoming);
        incoming := [];
      } else {
        assert pool.refcount == Minus(pool.refcount, []);
      }
      incoming := incoming + [temp];
      NotifyDataReady();
      st := AddStep(s, size);
    }

    method AddData(size: nat)
      requires Valid()
      modifies this, pool
      ensures Valid() && st == Next(old(st), Add(size))
      ensures incoming == (if |old(incoming)| > maxQueueSize then [] else old(incoming)) + [old(pool.next)]
      ensures old(pool.next) in pool.refcount && pool.refcount[old(pool.next)] == |clients|
      ensures properties == old(properties) && events == old(events)
    {
      hide IsReachable, RightSize;
      ReachableInv(st);
      Distinct(st);
      ReachableStep(st, Add(size));
      assert forall k :: 0 <= k < |incoming| ==> Waiting(st, incoming[k]);
      AddDataLocked(size);
    }

    /** Exchanges the queues; a leftover in the outgoing queue would be freed first. */
    method SwapQueues()
      requires NoDup(outgoing) && forall k :: 0 <= k < |outgoing| ==> outgoing[k] in pool.refcount
      modifies this`incoming, this`outgoing, pool`refcount
      ensures incoming == [] && outgoing == old(incoming)
      ensures pool.refcount == Minus(old(pool.refcount), old(outgoing))
    {
      if outgoing != [] {
        FlushQueue(outgoing);
        outgoing := [];
      } else {
        assert pool.refcount == Minus(old(pool.refcount), []);
      }
      incoming, outgoing := outgoing, incoming;
    }

    /** The consumer's critical section once its outgoing queue is empty: take what has arrived,
        or ask to be woken. */
    method QueueCheck() returns (mustWait: bool)
      requires Valid() && Enabled(st, QueueSection)
      modifies this, pool
      ensures Valid() && st == Next(old(st), QueueSection)
      ensures mustWait <==> st.pc == Blocked
      ensures !mustWait ==> outgoing == old(incoming) != [] && incoming == []
      ensures properties == old(properties) && events == old(events)
    {
      hide IsReachable, RightSize;
      ghost var s := st;
      ReachableStep(s, QueueSection);
      if incoming != [] {
        SwapQueues();
        mustWait := false;
      } else {
        notifyNewData := true;
        mustWait := true;
      }
      st := Next(s, QueueSection);
    }

    /** After sem_wait returned: the swap always brings data. */
    method SwapAfterWake()
      requires Valid() && Enabled(st, SwapWoken)
      modifies this, pool
      ensures Valid() && st == Next(old(st), SwapWoken)
      ensures outgoing == old(incoming) != [] && incoming == []
      ensures pool.refcount == old(pool.refcount)
      ensures properties == old(properties) && events == old(events)
    {
      hide IsReachable, RightSize, Inv;
      ghost var s := st;
      WokenHasData(s);
      ReachableStep(s, SwapWoken);
      SwapQueues();
      st := Next(s, SwapWoken);
    }

    method UpdateBufferReferences()
      requires forall k :: 0 <= k < |outgoing| ==> outgoing[k] in pool.refcount
      modifies pool`refcount
      ensures pool.refcount == SetAll(old(pool.refcount), outgoing, numClients)
    {
      var i := 0;
      while i < |outgoing|
        invariant 0 <= i <= |outgoing|
        invariant pool.refcount == SetAll(old(pool.refcount), outgoing[..i], numClients)
      {
        assert outgoing[i] in pool.refcount;
        pool.SetRef(outgoing[i], numClients);
        assert outgoing[..i+1] == outgoing[..i] + [outgoing[i]];
        i := i + 1;
      }
      assert outgoing[..i] == outgoing;
    }

    /** The virtual callback: the client takes the buffer. */
    method DataCallback(c: ClientId, b: BufferId)
      modifies this`handed
      ensures handed == old(handed)[c := (if c in old(handed) then old(handed)[c] else []) + [b]]
    {
      handed := handed[c := (if c in handed then handed[c] else []) + [b]];
    }

    /** Locks the client list and sets the count of every outgoing buffer. */
    method OpenPass()
      requires Valid() && Enabled(st, BeginPass)
      modifies this`st, pool
      ensures Valid() && st == Next(old(st), BeginPass)
    {
      hide IsReachable, RightSize;
      OutgoingAllocated(st);
      ReachableStep(st, BeginPass);
      UpdateBufferReferences();
      st := Next(st, BeginPass);
    }

    method DeliverOne(i: nat, j: nat)
      requires Valid() && st.pc == Pass(i, j) && i < |outgoing| && j < |clients|
      modifies this`handed, this`st
      ensures Valid() && st == Next(old(st), Deliver)
    {
      hide IsReachable, RightSize;
      ReachableStep(st, Deliver);
      DataCallback(clients[j], outgoing[i]);
      st := Next(st, Deliver);
    }

    /** Unlocks the client list and only then clears the outgoing queue. */
    method ClosePass()
      requires Valid() && Enabled(st, Unlock)
      modifies this`outgoing, this`st
      ensures Valid() && Enabled(Next(old(st), Unlock), ClearOutgoing)
      ensures st == Next(Next(old(st), Unlock), ClearOutgoing)
    {
      hide IsReachable, RightSize;
      ReachableStep(st, Unlock);
      st := Next(st, Unlock);
      ReachableStep(st, ClearOutgoing);
      outgoing := [];
      st := Next(st, ClearOutgoing);
    }

    /** The inner loop of the pass: one buffer, every client. */
    method DeliverBuffer(i: nat, ghost s0: State)
      requires Valid() && i < |outgoing| && OnTrack(s0, i, 0)
      modifies this`handed, this`st
      ensures Valid() && OnTrack(s0, i + 1, 0)
    {
      hide IsReachable, RightSize, Legal, Exec;
      var j := 0;
      while j < |clients|
        invariant 0 <= j <= |clients| && Valid() && OnTrack(s0, i, j)
      {
        PassContinues(s0, st, i, j, |clients|);
        DeliverOne(i, j);
        j := j + 1;
      }
      PrefixRow(i, |clients|);
    }

    /** One delivery pass. Run without interruption it is the protocol's pass, and every registered
        client has then been handed exactly the outgoing queue. */
    method ProcessData()
      requires Valid() && Enabled(st, BeginPass)
      modifies this, pool
      ensures Valid() && outgoing == [] && clients == old(clients) && incoming == old(incoming)
      ensures Legal(old(st), PassRun(|old(outgoing)|, |clients|))
      ensures st == Exec(old(st), PassRun(|old(outgoing)|, |clients|))
      ensures st.processed == old(st.processed) + old(outgoing)
      ensures forall c :: c in clients ==> Received(st, c) == Received(old(st), c) + old(outgoing)
      ensures properties == old(properties) && events == old(events)
    {
      hide IsReachable, RightSize, Legal, Exec, PassPrefix, PassRun, Inv;
      ghost var s0 := st;
      OpenPass();
      PassBegins(s0, |clients|);
      var i := 0;
      while i < |outgoing|
        invariant 0 <= i <= |outgoing| && Valid() && OnTrack(s0, i, 0) && properties == old(properties) && events == old(events)
      {
        DeliverBuffer(i, s0);
        i := i + 1;
      }
      PassEnds(s0, i, |clients|);
      ClosePass();
      PassDelivers(s0, st);
    }

    /** The loops of the pass begun in s0 are about to hand buffer i to client j. */
    ghost predicate OnTrack(s0: State, i: nat, j: nat)
      reads this
    {
      && outgoing == s0.outgoing && clients == s0.clients && incoming == s0.incoming
      && st.processed == s0.processed
      && i <= |outgoing| && j <= |clients|
      && st.pc == (if clients == [] then Pass(0, 0) else if j == |clients| then Pass(i + 1, 0) else Pass(i, j))
      && Legal(s0, PassPrefix(i, j, |clients|)) && st == Exec(s0, PassPrefix(i, j, |clients|))
    }

    method Start()
      modifies this`started, this`device
      ensures started && device == if old(started) then old(device) else Running(properties)
    {
      if !started {
        device := Running(properties);
        started := true;
      }
    }

    method Stop()
      modifies this`started, this`device
      ensures !started && device == if old(started) then Stopped else old(device)
    {
      if started {
        device := Stopped;
        started := false;
      }
    }

    /** Tells every client that the settings have changed. */
    method NotifyClients()
      modifies this`events
      ensures events == old(events) + clients
    {
      var i := 0;
      while i < |clients|
        invariant i <= |clients| && events == old(events) + clients[..i]
      {
        events := events + [clients[i]];
        i := i + 1;
      }
      assert clients[..i] == clients;
    }

    /** Stops a started device, notifies the clients and starts the device again with the settings now in
        force. */
    method RestartIfStarted()
      modifies this`started, this`device, this`events
      ensures started == old(started) && device == if started then Running(properties) else old(device)
      ensures events == old(events) + clients
    {
      var needsRestart := started;
      if started {
        Stop();
      }
      NotifyClients();
      if needsRestart {
        Start();
      }
    }

    method RegisterClient(c: ClientId)
      requires Valid() && !st.pc.Pass?
      modifies this
      ensures Valid() && st == Next(old(st), Register(c))
      ensures properties == old(properties) && events == old(events)
    {
      hide IsReachable, RightSize;
      ReachableStep(st, Register(c));
      if c !in clients {
        clients := clients + [c];
        numClients := |clients|;
        if 1 == numClients {
          Start();
        }
      }
      st := RegisterStep(st, c);
    }

    method UnregisterClient(c: ClientId)
      requires Valid() && !st.pc.Pass?
      modifies this
      ensures Valid() && st == Next(old(st), Unregister(c))
      ensures properties == old(properties) && events == old(events)
    {
      hide IsReachable, RightSize;
      ReachableStep(st, Unregister(c));
      clients := Without(clients, c);
      numClients := |clients|;
      if 0 == numClients {
        Stop();
      }
      st := UnregisterStep(st, c);
    }

    /** The queue-mutex section of a property change, at any moment: rejects bad properties with -1, adopts
        others. A running device still runs with the old ones. */
    method AdoptProperties(p: Properties) returns (ret: int)
      requires Valid() && p != properties && (p.threshold != 0 || BadProperties(p))
      modifies this`properties, this`bytesPerSecond, this`maxQueueSize, this`st
      ensures Agrees() && IsReachable(st) && bytesPerSecond == DataRate(properties)
      ensures ret == if BadProperties(p) then -1 else 0
      ensures properties == if ret == 0 then p else old(properties)
      ensures st == if ret != 0 then old(st) else Next(old(st), SetLimit(MaxQueueSize(p)))
      ensures RightSize(maxQueueSize, bytesPerSecond, properties.threshold)
      ensures ret == 0 ==> st.limit == maxQueueSize == 30 * DataRate(p) / p.threshold
    {
      hide IsReachable, DataRate, MaxQueueSize;
      if BadProperties(p) {
        return -1;
      }
      properties := p;
      bytesPerSecond := DataRate(p);
      maxQueueSize := MaxQueueSize(p);
      SizeOf(p, maxQueueSize);
      ReachableStep(st, SetLimit(maxQueueSize));
      st := Next(st, SetLimit(maxQueueSize));
      return 0;
    }

    /** Adopts good properties, tells the clients and restarts a running device. */
    method SetAudioProperties(p: Properties) returns (ret: int)
      requires Valid() && !st.pc.Pass?
      requires p.threshold != 0 || p == properties || BadProperties(p)
      modifies this
      ensures Valid()
      ensures ret == if p != old(properties) && BadProperties(p) then -1 else 0
      ensures properties == if ret == 0 then p else old(properties)
      ensures events == old(events) + (if p == old(properties) || ret != 0 then [] else clients)
      ensures st == if p == old(properties) || ret != 0 then old(st) else Next(old(st), SetLimit(MaxQueueSize(p)))
      ensures ret == 0 ==> st.limit == maxQueueSize == 30 * DataRate(p) / p.threshold
    {
      hide IsReachable, DataRate, MaxQueueSize;
      if p == properties {
        return 0;
      }
      ret := AdoptProperties(p);
      if ret == 0 {
        RestartIfStarted();
      }
    }

    /** A client gives a buffer back. */
    method ReleaseBuffer(c: ClientId, b: BufferId)
      requires Valid() && Enabled(st, Release(c, b))
      modifies this`st, pool
      ensures Valid() && st == Next(old(st), Release(c, b))
    {
      hide IsReachable, RightSize;
      ReachableInv(st);
      HeldIsCounted(st, c, b);
      ReachableStep(st, Release(c, b));
      pool.UnrefBuffer(b);
      st := ReleaseStep(st, c, b);
    }
  }
}
