/** The protocol of q_mgr as a step system: one producer, one consumer thread, clients that
    register, unregister and release buffers at any moment. Each label is one critical section
    (or one callback) of the source; a run is any interleaving of them.

    The fields after `holders` are histories: nothing in the source stores them. */
module QueueProtocol {
  import opened AudioProperties

  type BufferId = nat
  type ClientId = nat

  /** Where the consumer thread is. `Pass(i, j)` holds the client-list mutex and is about to hand
      buffer i of the outgoing queue to client j. */
  datatype Pc = Check | Pass(buffer: nat, client: nat) | Clear | Blocked | Woken

  /** What became of one filling of the incoming queue. */
  datatype Batch = Taken(ids: seq<BufferId>) | Overflowed(ids: seq<BufferId>, limit: nat)

  datatype State = State(
    incoming: seq<BufferId>,
    outgoing: seq<BufferId>,
    notify: bool,
    semaphore: nat,
    limit: nat,
    refcount: map<BufferId, nat>,   // exactly the allocated buffers
    clients: seq<ClientId>,
    started: bool,
    pc: Pc,
    holders: map<BufferId, set<ClientId>>,
    sizes: seq<nat>,                // sizes[b] is the size of the b-th buffer ever added
    batches: seq<Batch>,
    processed: seq<BufferId>,
    received: map<ClientId, seq<BufferId>>,
    freed: seq<BufferId>,
    leaked: set<BufferId>,
    highestLimit: nat)

  datatype Label =
    | Add(size: nat)                // add_data, under the queue mutex
    | QueueSection                  // the consumer finds the outgoing queue empty
    | Wake                          // sem_wait returns
    | SwapWoken                     // the swap after a wake
    | BeginPass                     // process_data up to the end of update_buffer_references
    | Deliver                       // one data_callback
    | Unlock                        // the end of the delivery loops
    | ClearOutgoing                 // the clear after the client-list mutex was released
    | Release(client: ClientId, buffer: BufferId)
    | Register(client: ClientId)
    | Unregister(client: ClientId)
    | SetLimit(limit: nat)          // set_audio_properties

  function Init(limit: nat): State {
    State([], [], false, 0, limit, map[], [], false, Check,
          map[], [], [], [], map[], [], {}, limit)
  }

  // ----- the steps -----

  function Holders(s: State, b: BufferId): set<ClientId> {
    if b in s.holders then s.holders[b] else {}
  }

  function Received(s: State, c: ClientId): seq<BufferId> {
    if c in s.received then s.received[c] else []
  }

  predicate DeliveryDone(s: State)
  {
    s.pc.Pass? && (s.pc.buffer >= |s.outgoing| || s.clients == [])
  }

  predicate Enabled(s: State, l: Label) {
    match l
    case Add(_) => true
    case QueueSection => s.pc == Check && s.outgoing == []
    case Wake => s.pc == Blocked && s.semaphore > 0
    case SwapWoken => s.pc == Woken
    case BeginPass => s.pc == Check && s.outgoing != []
    case Deliver => s.pc.Pass? && s.pc.buffer < |s.outgoing| && s.pc.client < |s.clients|
    case Unlock => DeliveryDone(s)
    case ClearOutgoing => s.pc == Clear
    case Release(c, b) => c in Holders(s, b)
    case Register(_) => !s.pc.Pass?
    case Unregister(_) => !s.pc.Pass?
    case SetLimit(_) => true
  }

  function Minus(refcount: map<BufferId, nat>, ids: seq<BufferId>): map<BufferId, nat> {
    map b | b in refcount && b !in ids :: refcount[b]
  }

  function SetAll(refcount: map<BufferId, nat>, ids: seq<BufferId>, n: nat): map<BufferId, nat> {
    map b | b in refcount.Keys + (set i | 0 <= i < |ids| :: ids[i]) :: if b in ids then n else refcount[b]
  }

  /** Swaps the queues, freeing first whatever the outgoing queue still held. */
  function Swap(s: State): State {
    s.(incoming := [],
       outgoing := s.incoming,
       refcount := Minus(s.refcount, s.outgoing),
       freed := s.freed + s.outgoing,
       batches := s.batches + [Taken(s.incoming)])
  }

  predicate Overflows(s: State) { s.limit < |s.incoming| }

  /** The part of the incoming queue an add frees, and the part it keeps. */
  function Flushed(s: State): seq<BufferId> { if Overflows(s) then s.incoming else [] }

  function Kept(s: State): seq<BufferId> { if Overflows(s) then [] else s.incoming }

  /** Allocates the next buffer, flushes an over-long incoming queue, appends and notifies. */
  function AddStep(s: State, size: nat): State {
    s.(incoming := Kept(s) + [|s.sizes|],
       refcount := Minus(s.refcount[|s.sizes| := |s.clients|], Flushed(s)),
       freed := s.freed + Flushed(s),
       batches := if Overflows(s) then s.batches + [Overflowed(s.incoming, s.limit)] else s.batches,
       sizes := s.sizes + [size],
       semaphore := if s.notify then s.semaphore + 1 else s.semaphore,
       notify := false)
  }

  /** unref_audio_buffer: a count of one frees, anything else decrements (unsigned). Releasing
      a buffer that is no longer allocated would free it again. */
  predicate LastUnref(refcount: map<BufferId, nat>, b: BufferId) {
    b !in refcount || refcount[b] == 1
  }

  function Unref(refcount: map<BufferId, nat>, b: BufferId): map<BufferId, nat> {
    if LastUnref(refcount, b) then Minus(refcount, [b])
    else refcount[b := if refcount[b] == 0 then U32 - 1 else refcount[b] - 1]
  }

  function ReleaseStep(s: State, c: ClientId, b: BufferId): State {
    s.(refcount := Unref(s.refcount, b),
       freed := if LastUnref(s.refcount, b) then s.freed + [b] else s.freed,
       holders := s.holders[b := Holders(s, b) - {c}])
  }

  function DeliverStep(s: State): State
    requires Enabled(s, Deliver)
  {
    var b := s.outgoing[s.pc.buffer];
    var c := s.clients[s.pc.client];
    s.(holders := s.holders[b := Holders(s, b) + {c}],
       received := s.received[c := Received(s, c) + [b]],
       pc := if s.pc.client + 1 == |s.clients| then Pass(s.pc.buffer + 1, 0)
             else Pass(s.pc.buffer, s.pc.client + 1))
  }

  function Without(clients: seq<ClientId>, c: ClientId): seq<ClientId> {
    if clients == [] then []
    else (if clients[0] == c then [] else [clients[0]]) + Without(clients[1..], c)
  }

  /** Registering starts the device for the first client, unregistering stops it after the last. */
  function With(clients: seq<ClientId>, c: ClientId): seq<ClientId> {
    if c in clients then clients else clients + [c]
  }

  predicate StartedWith(started: bool, clients: seq<ClientId>, c: ClientId) {
    started || (c !in clients && |clients| + 1 == 1)
  }

  predicate StartedWithout(started: bool, clients: seq<ClientId>, c: ClientId) {
    started && Without(clients, c) != []
  }

  function RegisterStep(s: State, c: ClientId): State {
    s.(clients := With(s.clients, c), started := StartedWith(s.started, s.clients, c))
  }

  function UnregisterStep(s: State, c: ClientId): State {
    s.(clients := Without(s.clients, c), started := StartedWithout(s.started, s.clients, c))
  }

  function Next(s: State, l: Label): State
    requires Enabled(s, l)
  {
    match l
    case Add(size) => AddStep(s, size)
    case QueueSection => if s.incoming != [] then Swap(s) else s.(notify := true, pc := Blocked)
    case Wake => s.(semaphore := s.semaphore - 1, pc := Woken)
    case SwapWoken => Swap(s).(pc := Check)
    case BeginPass =>
      s.(refcount := SetAll(s.refcount, s.outgoing, |s.clients|),
         leaked := if s.clients == [] then s.leaked + (set b | b in s.outgoing) else s.leaked,
         pc := Pass(0, 0))
    case Deliver => DeliverStep(s)
    case Unlock => s.(pc := Clear)
    case ClearOutgoing => s.(processed := s.processed + s.outgoing, outgoing := [], pc := Check)
    case Release(c, b) => ReleaseStep(s, c, b)
    case Register(c) => RegisterStep(s, c)
    case Unregister(c) => UnregisterStep(s, c)
    case SetLimit(n) => s.(limit := n, highestLimit := if n > s.highestLimit then n else s.highestLimit)
  }

  // ----- runs -----

  ghost predicate Legal(s: State, run: seq<Label>)
    decreases run
  {
    run == [] || (Enabled(s, run[0]) && Legal(Next(s, run[0]), run[1..]))
  }

  ghost function Exec(s: State, run: seq<Label>): State
    requires Legal(s, run)
    decreases run
  {
    if run == [] then s else Exec(Next(s, run[0]), run[1..])
  }

  lemma {:induction false} ExecAppend(s: State, run: seq<Label>, l: Label)
    requires Legal(s, run) && Enabled(Exec(s, run), l)
    ensures Legal(s, run + [l]) && Exec(s, run + [l]) == Next(Exec(s, run), l)
    decreases run
  {
    if run == [] {
      assert run + [l] == [l] && [l][1..] == [];
    } else {
      ExecAppend(Next(s, run[0]), run[1..], l);
      assert (run + [l])[1..] == run[1..] + [l];
    }
  }
}
