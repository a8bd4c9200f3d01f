/** The lock protocol: which mutexes each activity of the program takes, in which order, and why
    no interleaving of any number of threads can deadlock on them. */
module LockOrder {

  type ClientId = nat
  type ThreadId = nat

  /** The session-table mutex, the queue mutex, the client-list mutex, each client's own mutex, and the
      mutex guarding all reference counts. */
  datatype Lock = SessionLock | QueueLock | ListLock | ClientLock(client: ClientId) | BufferLock

  datatype Op = Acquire(lock: Lock) | Unlock(lock: Lock)

  /** What a client's data_callback does with the lock protocol: music-id queues the buffer under
      its own mutex, a plain client releases it at once. */
  datatype Callback = Queues(client: ClientId) | Releases

  datatype Activity =
    | AddData                                           // the device thread
    | TakeQueue                                         // the consumer swapping or going to sleep
    | DeliveryPass(buffers: nat, clients: seq<Callback>)
    | ChangeClients                                     // register_client, unregister_client
    | SetProperties(changed: bool)
    | MusicTick(client: ClientId, trimmed: nat)         // worker_thread, releasing what it trims
    | SetPrecapture(client: ClientId, trimmed: nat)
    | ClientState(client: ClientId)                     // grab_*, send_clip_via_socket
    | SessionLookup                                     // the session list of a handler
    | DropClient(held: nat)                             // ~music_id_client after joining its worker

  function Section(l: Lock, inside: seq<Op>): seq<Op> {
    [Acquire(l)] + inside + [Unlock(l)]
  }

  function Times(n: nat, ops: seq<Op>): seq<Op> {
    if n == 0 then [] else ops + Times(n - 1, ops)
  }

  function CallbackOps(c: Callback): seq<Op> {
    match c
    case Queues(client) => Section(ClientLock(client), [])
    case Releases => Section(BufferLock, [])
  }

  function CallbacksOps(clients: seq<Callback>): seq<Op> {
    if clients == [] then [] else CallbackOps(clients[0]) + CallbacksOps(clients[1..])
  }

  function Code(a: Activity): seq<Op> {
    match a
    case AddData => Section(QueueLock, [])
    case TakeQueue => Section(QueueLock, [])
    case SessionLookup => Section(SessionLock, [])
    case DeliveryPass(n, clients) =>
      Section(ListLock, Section(BufferLock, []) + Times(n, CallbacksOps(clients)))
    case ChangeClients => Section(ListLock, [])
    case SetProperties(changed) => Section(QueueLock, []) + (if changed then Section(ListLock, []) else [])
    case MusicTick(c, n) => Section(ClientLock(c), Times(n, Section(BufferLock, [])))
    case SetPrecapture(c, n) => Section(ClientLock(c), Times(n, Section(BufferLock, [])))
    case ClientState(c) => Section(ClientLock(c), [])
    case DropClient(n) => Times(n, Section(BufferLock, []))
  }

  // ----- the discipline -----

  function Rank(l: Lock): nat {
    match l
    case SessionLock => 4
    case QueueLock => 3
    case ListLock => 0
    case ClientLock(_) => 1
    case BufferLock => 2
  }

  /** May l be acquired while `held` is held: only upwards, and the queue mutex only alone. */
  predicate Permitted(held: set<Lock>, l: Lock) {
    && (forall h :: h in held ==> Rank(h) < Rank(l)) && (l == QueueLock ==> held == {})
    && QueueLock !in held && SessionLock !in held
  }

  /** Executing ops from `held` takes locks as permitted, gives back only what it has, and ends with
      `finally`. */
  predicate Ordered(held: set<Lock>, ops: seq<Op>, finally: set<Lock>)
    decreases ops
  {
    if ops == [] then held == finally
    else match ops[0]
      case Acquire(l) => Permitted(held, l) && Ordered(held + {l}, ops[1..], finally)
      case Unlock(l) => l in held && Ordered(held - {l}, ops[1..], finally)
  }

  lemma {:induction false} OrderedConcat(a: set<Lock>, p: seq<Op>, b: set<Lock>, q: seq<Op>, c: set<Lock>)
    requires Ordered(a, p, b) && Ordered(b, q, c)
    ensures Ordered(a, p + q, c)
    decreases p
  {
    if p == [] {
      assert p + q == q;
    } else {
      assert (p + q)[1..] == p[1..] + q && (p + q)[0] == p[0];
      match p[0]
      case Acquire(l) => OrderedConcat(a + {l}, p[1..], b, q, c);
      case Unlock(l) => OrderedConcat(a - {l}, p[1..], b, q, c);
    }
  }

  lemma OrderedSection(held: set<Lock>, l: Lock, inside: seq<Op>)
    requires Permitted(held, l) && l !in held && Ordered(held + {l}, inside, held + {l})
    ensures Ordered(held, Section(l, inside), held)
  {
    assert held + {l} - {l} == held;
    assert [Unlock(l)][1..] == [];
    assert Ordered(held + {l}, [Unlock(l)], held);
    OrderedConcat(held + {l}, inside, held + {l}, [Unlock(l)], held);
    assert Section(l, inside)[1..] == inside + [Unlock(l)];
  }

  lemma {:induction false} OrderedTimes(held: set<Lock>, n: nat, ops: seq<Op>)
    requires Ordered(held, ops, held)
    ensures Ordered(held, Times(n, ops), held)
  {
    if n > 0 {
      OrderedTimes(held, n - 1, ops);
      OrderedConcat(held, ops, held, Times(n - 1, ops), held);
    }
  }

  lemma {:induction false} OrderedCallbacks(clients: seq<Callback>)
    ensures Ordered({ListLock}, CallbacksOps(clients), {ListLock})
  {
    if clients != [] {
      OrderedCallbacks(clients[1..]);
      var l := match clients[0] case Queues(c) => ClientLock(c) case Releases => BufferLock;
      OrderedSection({ListLock}, l, []);
      OrderedConcat({ListLock}, CallbackOps(clients[0]), {ListLock}, CallbacksOps(clients[1..]), {ListLock});
    }
  }

  /** Every activity, whatever its sizes, follows the discipline from no lock to no lock. */
  lemma CodeOrdered(a: Activity)
    ensures Ordered({}, Code(a), {})
  {
    OrderedSection({}, QueueLock, []);
    OrderedSection({}, ListLock, []);
    OrderedSection({}, SessionLock, []);
    match a
    case AddData | TakeQueue | ChangeClients | SessionLookup =>
    case DeliveryPass(n, clients) =>
      OrderedSection({ListLock}, BufferLock, []);
      OrderedCallbacks(clients);
      OrderedTimes({ListLock}, n, CallbacksOps(clients));
      OrderedConcat({ListLock}, Section(BufferLock, []), {ListLock}, Times(n, CallbacksOps(clients)), {ListLock});
      assert {} + {ListLock} == {ListLock};
      OrderedSection({}, ListLock, Section(BufferLock, []) + Times(n, CallbacksOps(clients)));
    case SetProperties(changed) =>
      if changed { OrderedConcat({}, Section(QueueLock, []), {}, Section(ListLock, []), {}); }
    case MusicTick(c, n) => OrderedTrim(c, n);
    case SetPrecapture(c, n) => OrderedTrim(c, n);
    case ClientState(c) => OrderedSection({}, ClientLock(c), []);
    case DropClient(n) =>
      OrderedSection({}, BufferLock, []);
      OrderedTimes({}, n, Section(BufferLock, []));
  }

  lemma OrderedTrim(c: ClientId, n: nat)
    ensures Ordered({}, Section(ClientLock(c), Times(n, Section(BufferLock, []))), {})
  {
    var l := ClientLock(c);
    assert {} + {l} == {l};
    OrderedSection({l}, BufferLock, []);
    OrderedTimes({l}, n, Section(BufferLock, []));
    OrderedSection({}, l, Times(n, Section(BufferLock, [])));
  }

  // ----- threads -----

  datatype Thread = Thread(held: set<Lock>, rest: seq<Op>)

  type System = map<ThreadId, Thread>

  /** Thread t takes up a new activity, or executes its next lock operation. */
  datatype Move = Begin(thread: ThreadId, activity: Activity) | Advance(thread: ThreadId)

  predicate Free(sys: System, l: Lock) {
    forall t :: t in sys ==> l !in sys[t].held
  }

  predicate CanMove(sys: System, m: Move) {
    match m
    case Begin(t, _) => t !in sys || sys[t].rest == []
    case Advance(t) =>
      t in sys && sys[t].rest != [] && (sys[t].rest[0].Acquire? ==> Free(sys, sys[t].rest[0].lock))
  }

  function Moved(sys: System, m: Move): System
    requires CanMove(sys, m)
  {
    match m
    case Begin(t, a) => sys[t := Thread(if t in sys then sys[t].held else {}, Code(a))]
    case Advance(t) =>
      var th := sys[t];
      sys[t := Thread(
        (match th.rest[0] case Acquire(l) => th.held + {l} case Unlock(l) => th.held - {l}),
        th.rest[1..])]
  }

  ghost predicate LegalMoves(sys: System, moves: seq<Move>)
    decreases moves
  {
    moves == [] || (CanMove(sys, moves[0]) && LegalMoves(Moved(sys, moves[0]), moves[1..]))
  }

  ghost function After(sys: System, moves: seq<Move>): System
    requires LegalMoves(sys, moves)
    decreases moves
  {
    if moves == [] then sys else After(Moved(sys, moves[0]), moves[1..])
  }

  /** The queue mutex is held alone, and never two client mutexes at once. */
  ghost predicate HeldFew(held: set<Lock>) {
    && (QueueLock in held ==> held == {QueueLock})
    && (forall c, d :: ClientLock(c) in held && ClientLock(d) in held ==> c == d)
  }

  ghost predicate SystemInv(sys: System) {
    && (forall t :: t in sys ==> Ordered(sys[t].held, sys[t].rest, {}) && HeldFew(sys[t].held))
    && (forall t, u :: t in sys && u in sys && t != u ==> sys[t].held !! sys[u].held)
  }

  lemma MoveKeeps(sys: System, m: Move)
    requires SystemInv(sys) && CanMove(sys, m)
    ensures SystemInv(Moved(sys, m))
  {
    match m
    case Begin(t, a) => CodeOrdered(a);
    case Advance(t) =>
  }

  lemma {:induction false} MovesKeep(sys: System, moves: seq<Move>)
    requires SystemInv(sys) && LegalMoves(sys, moves)
    ensures SystemInv(After(sys, moves))
    decreases moves
  {
    if moves != [] {
      MoveKeeps(sys, moves[0]);
      MovesKeep(Moved(sys, moves[0]), moves[1..]);
    }
  }

  /** In every reachable state the locks of one thread, and of different threads, exclude as the
      design says. */
  lemma LocksHeldTogether(moves: seq<Move>, t: ThreadId)
    requires LegalMoves(map[], moves) && t in After(map[], moves)
    ensures HeldFew(After(map[], moves)[t].held)
    ensures forall u :: u in After(map[], moves) && u != t ==> After(map[], moves)[t].held !! After(map[], moves)[u].held
  {
    MovesKeep(map[], moves);
  }

  // ----- no deadlock -----

  /** t waits for a lock that u holds. */
  predicate WaitsFor(sys: System, t: ThreadId, u: ThreadId) {
    && t in sys && u in sys
    && sys[t].rest != [] && sys[t].rest[0].Acquire? && sys[t].rest[0].lock in sys[u].held
  }

  /** The rank of the lock a thread is about to take. */
  function Wanted(sys: System, t: ThreadId): nat {
    if t in sys && sys[t].rest != [] && sys[t].rest[0].Acquire? then Rank(sys[t].rest[0].lock) else 5
  }

  lemma WaitsUpwards(sys: System, t: ThreadId, u: ThreadId)
    requires SystemInv(sys) && WaitsFor(sys, t, u)
    ensures Wanted(sys, t) < Wanted(sys, u)
  {}

  ghost predicate WaitPath(sys: System, path: seq<ThreadId>) {
    forall k :: 0 <= k < |path| - 1 ==> WaitsFor(sys, path[k], path[k+1])
  }

  lemma {:induction false} PathClimbs(sys: System, path: seq<ThreadId>)
    requires SystemInv(sys) && WaitPath(sys, path) && |path| >= 2
    ensures Wanted(sys, path[0]) < Wanted(sys, path[|path|-1])
  {
    WaitsUpwards(sys, path[0], path[1]);
    if |path| > 2 {
      PathClimbs(sys, path[1..]);
    }
  }

  /** No run of any number of threads reaches a cyclic wait. */
  lemma NoCyclicWait(moves: seq<Move>, path: seq<ThreadId>)
    requires LegalMoves(map[], moves) && |path| >= 2 && WaitPath(After(map[], moves), path)
    ensures path[0] != path[|path|-1]
  {
    MovesKeep(map[], moves);
    PathClimbs(After(map[], moves), path);
  }

  /** Follows the waits-for relation from t until a thread that can move. */
  lemma {:induction false} SomeoneMoves(sys: System, t: ThreadId) returns (u: ThreadId)
    requires SystemInv(sys) && t in sys && sys[t].rest != []
    ensures CanMove(sys, Advance(u))
    decreases 5 - Wanted(sys, t)
  {
    if CanMove(sys, Advance(t)) {
      u := t;
    } else {
      var o :| o in sys && sys[t].rest[0].lock in sys[o].held;
      WaitsUpwards(sys, t, o);
      u := SomeoneMoves(sys, o);
    }
  }

  /** Deadlock freedom: in every reachable state, as long as some thread has a lock operation left,
      some thread can execute its next one. */
  lemma DeadlockFree(moves: seq<Move>, t: ThreadId)
    requires LegalMoves(map[], moves)
    requires t in After(map[], moves) && After(map[], moves)[t].rest != []
    ensures exists u :: CanMove(After(map[], moves), Advance(u))
  {
    MovesKeep(map[], moves);
    var u := SomeoneMoves(After(map[], moves), t);
  }
}
