/** The session table: what the open, close, start and stop handlers do to it and to the client list
    and device of q_mgr. A run is any sequence of handler calls. */
module Sessions {
  import opened QueueProtocol
  import opened QueueInvariants

  const SUCCESS := 0
  const UNSUPPORTED_API := 1
  const DURATION_OUT_OF_BOUNDS := 3
  const BAD_SESSION_ID := 4
  const INVALID_ARGUMENTS := 5
  const GENERAL_FAILURE := 6

  const MAX_SUPPORTED_SOURCES := 1
  const MAX_SUPPORTED_OUTPUT_TYPES := 2
  const BUFFERED_FILE_OUTPUT := 0

  datatype Session = Session(id: nat, client: ClientId, enable: bool, outputType: nat)

  /** The sessions of the one source, and the client list and started flag of its q_mgr. Each opened
      session gets a client object of its own. */
  datatype Table = Table(
    sessions: seq<Session>, counter: nat, nextClient: ClientId, clients: seq<ClientId>, started: bool)

  datatype Call = Open(source: int, outputType: nat) | Close(id: int) | Start(id: int) | Stop(id: int)

  // ----- the handlers -----

  function IndexOfId(q: seq<Session>, id: int): (k: nat)
    ensures k <= |q| && (k < |q| ==> q[k].id == id) && forall j :: 0 <= j < k ==> q[j].id != id
  {
    if q == [] || q[0].id == id then 0 else 1 + IndexOfId(q[1..], id)
  }

  function IndexOfBuffered(q: seq<Session>): (k: nat)
    ensures k <= |q| && (k < |q| ==> q[k].outputType == BUFFERED_FILE_OUTPUT)
    ensures forall j :: 0 <= j < k ==> q[j].outputType != BUFFERED_FILE_OUTPUT
  {
    if q == [] || q[0].outputType == BUFFERED_FILE_OUTPUT then 0 else 1 + IndexOfBuffered(q[1..])
  }

  function Erased(q: seq<Session>, k: nat): seq<Session> {
    if k < |q| then q[..k] + q[k+1..] else q
  }

  function AddClient(t: Table, c: ClientId): Table {
    t.(clients := With(t.clients, c), started := StartedWith(t.started, t.clients, c))
  }

  function DropClient(t: Table, c: ClientId): Table {
    t.(clients := Without(t.clients, c), started := StartedWithout(t.started, t.clients, c))
  }

  predicate Acceptable(source: int, outputType: nat) {
    0 <= source < MAX_SUPPORTED_SOURCES && outputType < MAX_SUPPORTED_OUTPUT_TYPES
  }

  /** The session an open replaces: another buffered-file session, if there is one. */
  function Replaced(t: Table, outputType: nat): nat {
    if outputType == BUFFERED_FILE_OUTPUT then IndexOfBuffered(t.sessions) else |t.sessions|
  }

  function OpenStep(t: Table, outputType: nat): Table {
    var k := Replaced(t, outputType);
    var grown := t.(sessions := Erased(t.sessions, k) + [Session(t.counter, t.nextClient, false, outputType)],
                     counter := t.counter + 1, nextClient := t.nextClient + 1);
    if k < |t.sessions| then DropClient(grown, t.sessions[k].client) else grown
  }

  function CloseStep(t: Table, k: nat): Table
    requires k < |t.sessions|
  {
    var closed := t.(sessions := Erased(t.sessions, k));
    if t.sessions[k].enable then DropClient(closed, t.sessions[k].client) else closed
  }

  function EnableStep(t: Table, k: nat, enable: bool): Table
    requires k < |t.sessions|
  {
    var s := t.sessions[k];
    if s.enable == enable then t
    else
      var flipped := t.(sessions := t.sessions[k := s.(enable := enable)]);
      if enable then AddClient(flipped, s.client) else DropClient(flipped, s.client)
  }

  function Handled(t: Table, call: Call): Table {
    match call
    case Open(source, outputType) => if Acceptable(source, outputType) then OpenStep(t, outputType) else t
    case Close(id) => var k := IndexOfId(t.sessions, id); if k < |t.sessions| then CloseStep(t, k) else t
    case Start(id) => var k := IndexOfId(t.sessions, id); if k < |t.sessions| then EnableStep(t, k, true) else t
    case Stop(id) => var k := IndexOfId(t.sessions, id); if k < |t.sessions| then EnableStep(t, k, false) else t
  }

  function ResultOf(t: Table, call: Call): int {
    match call
    case Open(source, outputType) => if Acceptable(source, outputType) then SUCCESS else INVALID_ARGUMENTS
    case Close(id) => if IndexOfId(t.sessions, id) < |t.sessions| then SUCCESS else BAD_SESSION_ID
    case Start(id) => if IndexOfId(t.sessions, id) < |t.sessions| then SUCCESS else BAD_SESSION_ID
    case Stop(id) => if IndexOfId(t.sessions, id) < |t.sessions| then SUCCESS else BAD_SESSION_ID
  }

  function Empty(): Table { Table([], 0, 0, [], false) }

  function AfterCalls(calls: seq<Call>): Table {
    if calls == [] then Empty() else Handled(AfterCalls(calls[..|calls|-1]), calls[|calls|-1])
  }

  // ----- what every run keeps -----

  ghost predicate Numbered(t: Table) {
    && (forall i, j :: 0 <= i < j < |t.sessions| ==>
          t.sessions[i].id < t.sessions[j].id && t.sessions[i].client < t.sessions[j].client)
    && (forall i :: 0 <= i < |t.sessions| ==> t.sessions[i].id < t.counter && t.sessions[i].client < t.nextClient)
  }

  ghost predicate OneBuffered(t: Table) {
    forall i, j :: 0 <= i < j < |t.sessions| && t.sessions[i].outputType == BUFFERED_FILE_OUTPUT
      ==> t.sessions[j].outputType != BUFFERED_FILE_OUTPUT
  }

  ghost function EnabledClients(q: seq<Session>): set<ClientId> {
    set k | 0 <= k < |q| && q[k].enable :: q[k].client
  }

  /** The client list is the clients of the enabled sessions, and the device runs for them only. */
  ghost predicate Linked(t: Table) {
    && NoDup(t.clients) && (forall c :: c in t.clients <==> c in EnabledClients(t.sessions))
    && (t.started <==> EnabledClients(t.sessions) != {})
  }

  ghost predicate TableInv(t: Table) { Numbered(t) && OneBuffered(t) && Linked(t) }

  lemma ErasedNumbered(t: Table, k: nat)
    requires Numbered(t) && OneBuffered(t)
    ensures Numbered(t.(sessions := Erased(t.sessions, k))) && OneBuffered(t.(sessions := Erased(t.sessions, k)))
  {}

  /** Taking a session out takes its client, and only it, out of the enabled ones. */
  lemma ErasedClients(t: Table, k: nat)
    requires Numbered(t) && k < |t.sessions|
    ensures EnabledClients(Erased(t.sessions, k)) == EnabledClients(t.sessions) - {t.sessions[k].client}
  {
    var q, e := t.sessions, Erased(t.sessions, k);
    assert forall i :: 0 <= i < |e| ==> e[i] == q[if i < k then i else i + 1];
    forall c | c in EnabledClients(q) && c != q[k].client ensures c in EnabledClients(e) {
      var i :| 0 <= i < |q| && q[i].enable && q[i].client == c;
      assert e[if i < k then i else i - 1] == q[i];
    }
  }

  lemma Dropped(t: Table, c: ClientId, before: set<ClientId>)
    requires NoDup(t.clients) && (forall x :: x in t.clients <==> x in before) && (t.started <==> before != {})
    requires EnabledClients(t.sessions) == before - {c}
    ensures Linked(DropClient(t, c))
  {
    WithoutIsRemoval(t.clients, c);
    var rest := Without(t.clients, c);
    if rest != [] { assert rest[0] in rest; }
  }

  lemma Joined(t: Table, c: ClientId, before: set<ClientId>)
    requires NoDup(t.clients) && (forall x :: x in t.clients <==> x in before) && (t.started <==> before != {})
    requires EnabledClients(t.sessions) == before + {c}
    ensures Linked(AddClient(t, c))
  {
    assert c in EnabledClients(t.sessions);
    if t.clients != [] { assert t.clients[0] in before; }
  }

  lemma NoneLeft(t: Table)
    requires OneBuffered(t)
    ensures forall s :: s in Erased(t.sessions, IndexOfBuffered(t.sessions)) ==> s.outputType != BUFFERED_FILE_OUTPUT
  {}

  /** The new session is disabled and the newest, and is the only buffered one if it is one. */
  lemma Appended(t: Table, outputType: nat)
    requires Numbered(t) && OneBuffered(t)
    requires outputType == BUFFERED_FILE_OUTPUT ==> forall s :: s in t.sessions ==> s.outputType != BUFFERED_FILE_OUTPUT
    ensures var g := t.(sessions := t.sessions + [Session(t.counter, t.nextClient, false, outputType)],
                        counter := t.counter + 1, nextClient := t.nextClient + 1);
      Numbered(g) && OneBuffered(g) && EnabledClients(g.sessions) == EnabledClients(t.sessions)
  {
    var q := t.sessions + [Session(t.counter, t.nextClient, false, outputType)];
    assert forall i :: 0 <= i < |t.sessions| ==> q[i] == t.sessions[i];
    forall c | c in EnabledClients(t.sessions) ensures c in EnabledClients(q) {
      var i :| 0 <= i < |t.sessions| && t.sessions[i].enable && t.sessions[i].client == c;
      assert q[i] == t.sessions[i];
    }
  }

  lemma DroppedFields(t: Table, c: ClientId)
    requires Numbered(t) && OneBuffered(t)
    ensures Numbered(DropClient(t, c)) && OneBuffered(DropClient(t, c))
    ensures Numbered(AddClient(t, c)) && OneBuffered(AddClient(t, c))
  {}

  lemma OpenKeeps(t: Table, outputType: nat)
    requires TableInv(t)
    ensures TableInv(OpenStep(t, outputType))
  {
    hide Numbered, OneBuffered, EnabledClients, DropClient;
    var k := Replaced(t, outputType);
    var e := t.(sessions := Erased(t.sessions, k));
    var g := e.(sessions := e.sessions + [Session(t.counter, t.nextClient, false, outputType)],
                counter := t.counter + 1, nextClient := t.nextClient + 1);
    ErasedNumbered(t, k);
    NoneLeft(t);
    Appended(e, outputType);
    if k < |t.sessions| {
      var c := t.sessions[k].client;
      ErasedClients(t, k);
      Dropped(g, c, EnabledClients(t.sessions));
      DroppedFields(g, c);
    } else {
      assert g == OpenStep(t, outputType);
    }
  }

  lemma CloseKeeps(t: Table, k: nat)
    requires TableInv(t) && k < |t.sessions|
    ensures TableInv(CloseStep(t, k))
  {
    var e, c := t.(sessions := Erased(t.sessions, k)), t.sessions[k].client;
    ErasedNumbered(t, k);
    ErasedClients(t, k);
    DroppedFields(e, c);
    if t.sessions[k].enable {
      hide Numbered, OneBuffered, EnabledClients, DropClient;
      Dropped(e, c, EnabledClients(t.sessions));
    } else {
      NotEnabled(t, k);
      hide Numbered, OneBuffered, EnabledClients;
    }
  }

  /** The client of a disabled session is no enabled session's client. */
  lemma NotEnabled(t: Table, k: nat)
    requires Numbered(t) && k < |t.sessions| && !t.sessions[k].enable
    ensures t.sessions[k].client !in EnabledClients(t.sessions)
  {}

  lemma Flipped(t: Table, k: nat, enable: bool)
    requires Numbered(t) && OneBuffered(t) && k < |t.sessions|
    ensures var f := t.(sessions := t.sessions[k := t.sessions[k].(enable := enable)]);
      && Numbered(f) && OneBuffered(f)
      && EnabledClients(f.sessions) ==
           if enable then EnabledClients(t.sessions) + {t.sessions[k].client}
           else EnabledClients(t.sessions) - {t.sessions[k].client}
  {
    var q, c := t.sessions, t.sessions[k].client;
    var f := q[k := q[k].(enable := enable)];
    assert forall i :: 0 <= i < |q| && i != k ==> f[i] == q[i];
    forall x | x in EnabledClients(q) && x != c ensures x in EnabledClients(f) {
      var i :| 0 <= i < |q| && q[i].enable && q[i].client == x;
      assert f[i] == q[i];
    }
    assert f[k].client == c && f[k].enable == enable;
  }

  lemma EnableKeeps(t: Table, k: nat, enable: bool)
    requires TableInv(t) && k < |t.sessions|
    ensures TableInv(EnableStep(t, k, enable))
  {
    if t.sessions[k].enable != enable {
      var f, c := t.(sessions := t.sessions[k := t.sessions[k].(enable := enable)]), t.sessions[k].client;
      Flipped(t, k, enable);
      DroppedFields(f, c);
      hide Numbered, OneBuffered, EnabledClients, DropClient, AddClient;
      if enable { Joined(f, c, EnabledClients(t.sessions)); } else { Dropped(f, c, EnabledClients(t.sessions)); }
    }
  }

  lemma HandlerKeeps(t: Table, call: Call)
    requires TableInv(t)
    ensures TableInv(Handled(t, call))
  {
    hide TableInv, OpenStep, CloseStep, EnableStep;
    match call
    case Open(source, outputType) => if Acceptable(source, outputType) { OpenKeeps(t, outputType); }
    case Close(id) => if IndexOfId(t.sessions, id) < |t.sessions| { CloseKeeps(t, IndexOfId(t.sessions, id)); }
    case Start(id) => if IndexOfId(t.sessions, id) < |t.sessions| { EnableKeeps(t, IndexOfId(t.sessions, id), true); }
    case Stop(id) => if IndexOfId(t.sessions, id) < |t.sessions| { EnableKeeps(t, IndexOfId(t.sessions, id), false); }
  }

  lemma {:induction false} CallsKeep(calls: seq<Call>)
    ensures TableInv(AfterCalls(calls))
  {
    if calls != [] {
      CallsKeep(calls[..|calls|-1]);
      HandlerKeeps(AfterCalls(calls[..|calls|-1]), calls[|calls|-1]);
      hide TableInv, Handled;
    }
  }

  /** Over every run of handlers: session ids are distinct and already issued, at most one buffered-file
      session exists, q_mgr's clients are without duplicates exactly those of the enabled sessions, and
      the device is started if and only if some session is enabled. */
  lemma SessionsAgree(calls: seq<Call>)
    ensures var t := AfterCalls(calls);
      && (forall i, j :: 0 <= i < j < |t.sessions| ==> t.sessions[i].id < t.sessions[j].id < t.counter)
      && (forall i, j :: 0 <= i < j < |t.sessions| ==>
            !(t.sessions[i].outputType == 0 && t.sessions[j].outputType == 0))
      && NoDup(t.clients) && (forall c :: c in t.clients <==> c in EnabledClients(t.sessions))
      && (t.started <==> exists k :: 0 <= k < |t.sessions| && t.sessions[k].enable)
  {
    CallsKeep(calls);
    var t := AfterCalls(calls);
    hide AfterCalls;
    if k :| 0 <= k < |t.sessions| && t.sessions[k].enable {
      assert t.sessions[k].client in EnabledClients(t.sessions);
    } else {
      assert EnabledClients(t.sessions) == {};
    }
  }

  // ----- what the table says about the calls -----

  /** The output types of the sessions opened so far; session k is the k-th. There is one source, number 0,
      and types 0, the buffered file, and 1. */
  function Opened(calls: seq<Call>): seq<nat> {
    if calls == [] then [] else OpenedNext(Opened(calls[..|calls|-1]), calls[|calls|-1])
  }

  function OpenedNext(types: seq<nat>, call: Call): seq<nat> {
    match call
    case Open(source, outputType) => if source == 0 && outputType <= 1 then types + [outputType] else types
    case _ => types
  }

  /** Session id has been opened, and since then neither closed nor replaced. */
  predicate Live(calls: seq<Call>, id: nat) {
    calls != [] &&
    var init := calls[..|calls|-1];
    LiveNext(Live(init, id), Opened(init), calls[|calls|-1], id)
  }

  predicate LiveNext(live: bool, types: seq<nat>, call: Call, id: nat) {
    match call
    case Open(source, outputType) =>
      if source != 0 || outputType > 1 then live
      else if id == |types| then true
      else live && !(outputType == 0 && id < |types| && types[id] == 0)
    case Close(x) => live && x != id
    case _ => live
  }

  /** Session id is live and was last started, not stopped. */
  predicate Capturing(calls: seq<Call>, id: nat) {
    Live(calls, id) && CapturingNext(Capturing(calls[..|calls|-1], id), calls[|calls|-1], id)
  }

  predicate CapturingNext(capturing: bool, call: Call, id: nat) {
    match call
    case Start(x) => x == id || capturing
    case Stop(x) => x != id && capturing
    case _ => capturing
  }

  ghost function Ids(q: seq<Session>): set<nat> {
    set k | 0 <= k < |q| :: q[k].id
  }

  /** The table records the calls. */
  ghost predicate Records(t: Table, calls: seq<Call>) {
    && t.counter == |Opened(calls)|
    && (forall id: nat :: Live(calls, id) <==> id in Ids(t.sessions))
    && (forall k :: 0 <= k < |t.sessions| ==> Matches(t.sessions[k], calls))
  }

  ghost predicate Matches(s: Session, calls: seq<Call>) {
    s.id < |Opened(calls)| && s.outputType == Opened(calls)[s.id] && (s.enable <==> Capturing(calls, s.id))
  }

  lemma OneMoreCall(init: seq<Call>, call: Call, id: nat)
    ensures var calls := init + [call];
      && Opened(calls) == OpenedNext(Opened(init), call)
      && Live(calls, id) == LiveNext(Live(init, id), Opened(init), call, id)
      && Capturing(calls, id) == (Live(calls, id) && CapturingNext(Capturing(init, id), call, id))
  {
    assert (init + [call])[..|init|] == init;
  }

  lemma NoSuchId(q: seq<Session>, id: int)
    requires IndexOfId(q, id) == |q|
    ensures forall x :: x in Ids(q) ==> x != id
  {}

  lemma ErasedIds(t: Table, k: nat)
    requires Numbered(t) && k < |t.sessions|
    ensures Ids(Erased(t.sessions, k)) == Ids(t.sessions) - {t.sessions[k].id}
    ensures forall s :: s in Erased(t.sessions, k) ==> s in t.sessions && s.id != t.sessions[k].id
  {
    var q, e := t.sessions, Erased(t.sessions, k);
    assert forall i :: 0 <= i < |e| ==> e[i] == q[if i < k then i else i + 1];
    forall x | x in Ids(q) && x != q[k].id ensures x in Ids(e) {
      var i :| 0 <= i < |q| && q[i].id == x;
      assert e[if i < k then i else i - 1] == q[i];
    }
  }

  lemma ClosedTable(t: Table, id: int)
    requires Numbered(t)
    ensures var u := Handled(t, Close(id));
      && u.counter == t.counter && Ids(u.sessions) == (set x | x in Ids(t.sessions) && x != id)
      && forall s :: s in u.sessions ==> s in t.sessions && s.id != id
  {
    var k := IndexOfId(t.sessions, id);
    if k < |t.sessions| { ErasedIds(t, k); } else { NoSuchId(t.sessions, id); }
    assert Handled(t, Close(id)).sessions == Erased(t.sessions, k);
    hide Erased;
    assert forall s :: s in t.sessions ==> s.id in Ids(t.sessions);
  }

  lemma RecordsClose(t: Table, init: seq<Call>, id: int)
    requires TableInv(t) && Records(t, init)
    ensures Records(Handled(t, Close(id)), init + [Close(id)])
  {
    hide Opened, Live, Capturing, Handled, Numbered, OneBuffered, Linked, Ids;
    var u, calls := Handled(t, Close(id)), init + [Close(id)];
    ClosedTable(t, id);
    OneMoreCall(init, Close(id), 0);
    forall x: nat ensures Live(calls, x) <==> x in Ids(u.sessions) { OneMoreCall(init, Close(id), x); }
    forall i | 0 <= i < |u.sessions| ensures Matches(u.sessions[i], calls) {
      var s := u.sessions[i];
      assert s in t.sessions;
      var j :| 0 <= j < |t.sessions| && t.sessions[j] == s;
      assert Matches(t.sessions[j], init);
      OneMoreCall(init, Close(id), s.id);
      CapturingIsLive(init, s.id);
      ListedIsLive(u, s);
    }
  }

  lemma ListedIsLive(t: Table, s: Session)
    requires s in t.sessions
    ensures s.id in Ids(t.sessions)
  {}

  lemma EnabledTable(t: Table, call: Call)
    requires Numbered(t) && (call.Start? || call.Stop?)
    ensures var u := Handled(t, call);
      && |u.sessions| == |t.sessions| && u.counter == t.counter && Ids(u.sessions) == Ids(t.sessions)
      && forall i :: 0 <= i < |u.sessions| ==>
           u.sessions[i] == if t.sessions[i].id == call.id then t.sessions[i].(enable := call.Start?) else t.sessions[i]
  {
    var u, k := Handled(t, call), IndexOfId(t.sessions, call.id);
    assert forall i :: 0 <= i < |u.sessions| ==>
      u.sessions[i] == if i == k then t.sessions[i].(enable := call.Start?) else t.sessions[i];
    SameIds(t.sessions, u.sessions);
  }

  lemma RecordsEnable(t: Table, init: seq<Call>, call: Call)
    requires TableInv(t) && Records(t, init) && (call.Start? || call.Stop?)
    ensures Records(Handled(t, call), init + [call])
  {
    hide Opened, Live, Capturing, Handled, OneBuffered, Linked;
    EnabledTable(t, call);
    OneMoreCall(init, call, 0);
    forall x: nat ensures Live(init + [call], x) <==> x in Ids(t.sessions) { OneMoreCall(init, call, x); }
    forall i | 0 <= i < |t.sessions| ensures Matches(Handled(t, call).sessions[i], init + [call]) {
      assert Matches(t.sessions[i], init);
      assert t.sessions[i].id in Ids(t.sessions);
      OneMoreCall(init, call, t.sessions[i].id);
    }
  }

  lemma OpenedTable(t: Table, outputType: nat)
    requires Numbered(t)
    ensures var u, e, k := OpenStep(t, outputType), Erased(t.sessions, Replaced(t, outputType)), Replaced(t, outputType);
      && u.counter == t.counter + 1 && u.sessions == e + [Session(t.counter, t.nextClient, false, outputType)]
      && Ids(u.sessions) == Ids(t.sessions) - (if k < |t.sessions| then {t.sessions[k].id} else {}) + {t.counter}
      && forall s :: s in e ==> s in t.sessions && s.id < t.counter && (k < |t.sessions| ==> s.id != t.sessions[k].id)
  {
    var u, k := OpenStep(t, outputType), Replaced(t, outputType);
    var e := Erased(t.sessions, k);
    if k < |t.sessions| { ErasedIds(t, k); }
    var added := Session(t.counter, t.nextClient, false, outputType);
    forall x | x in Ids(e) ensures x in Ids(e + [added]) {
      var i :| 0 <= i < |e| && e[i].id == x;
      assert (e + [added])[i].id == x;
    }
    assert (e + [added])[|e|].id == t.counter;
    assert Ids(e + [added]) == Ids(e) + {t.counter};
  }

  /** The sessions an open replaces are the buffered ones, and none but them. */
  lemma ReplacedIds(t: Table, init: seq<Call>, outputType: nat, x: nat)
    requires TableInv(t) && Records(t, init) && x in Ids(t.sessions)
    ensures x < |Opened(init)|
    ensures var k := Replaced(t, outputType);
      outputType == BUFFERED_FILE_OUTPUT && Opened(init)[x] == BUFFERED_FILE_OUTPUT
      <==> k < |t.sessions| && x == t.sessions[k].id
  {
    var i :| 0 <= i < |t.sessions| && t.sessions[i].id == x;
    assert Matches(t.sessions[i], init);
  }

  lemma RecordsOpen(t: Table, init: seq<Call>, source: int, outputType: nat)
    requires TableInv(t) && Records(t, init)
    ensures Records(Handled(t, Open(source, outputType)), init + [Open(source, outputType)])
  {
    hide Opened, Live, Capturing, OneBuffered, Linked, Numbered, OpenStep, Erased, Replaced;
    var call, calls := Open(source, outputType), init + [Open(source, outputType)];
    OneMoreCall(init, call, 0);
    forall x: nat | Live(init, x) ensures x < t.counter { assert x in Ids(t.sessions); ReplacedIds(t, init, outputType, x); }
    if Acceptable(source, outputType) {
      OpenedTable(t, outputType);
      var u := OpenStep(t, outputType);
      forall x: nat ensures Live(calls, x) <==> x in Ids(u.sessions) {
        OneMoreCall(init, call, x);
        if x in Ids(t.sessions) { ReplacedIds(t, init, outputType, x); }
      }
      forall i | 0 <= i < |u.sessions| ensures Matches(u.sessions[i], calls) {
        var s := u.sessions[i];
        OneMoreCall(init, call, s.id);
        if i < |u.sessions| - 1 {
          StillMatches(t, init, s, call);
        } else {
          assert Capturing(init, s.id) ==> Live(init, s.id) by { CapturingIsLive(init, s.id); }
        }
      }
    } else {
      forall x: nat ensures Live(calls, x) <==> x in Ids(t.sessions) { OneMoreCall(init, call, x); }
      forall i | 0 <= i < |t.sessions| ensures Matches(t.sessions[i], calls) {
        assert Matches(t.sessions[i], init);
        assert t.sessions[i].id in Ids(t.sessions);
        OneMoreCall(init, call, t.sessions[i].id);
      }
    }
  }

  lemma CapturingIsLive(calls: seq<Call>, id: nat)
    ensures Capturing(calls, id) ==> Live(calls, id)
  {}

  lemma SameIds(a: seq<Session>, b: seq<Session>)
    requires |a| == |b| && forall i :: 0 <= i < |a| ==> a[i].id == b[i].id
    ensures Ids(a) == Ids(b)
  {
    forall x ensures x in Ids(a) <==> x in Ids(b) {
      if x in Ids(a) { var i :| 0 <= i < |a| && a[i].id == x; assert b[i].id == x; }
      if x in Ids(b) { var i :| 0 <= i < |b| && b[i].id == x; assert a[i].id == x; }
    }
  }

  lemma StillMatches(t: Table, init: seq<Call>, s: Session, call: Call)
    requires Records(t, init) && s in t.sessions && call.Open? && Live(init + [call], s.id)
    ensures Matches(s, init + [call])
  {
    hide Live, Capturing, Opened;
    var i :| 0 <= i < |t.sessions| && t.sessions[i] == s;
    assert Matches(t.sessions[i], init);
    OneMoreCall(init, call, s.id);
  }

  /** What the close, start and stop handlers answer for a session id. */
  predicate Answers(t: Table, id: nat, result: int) {
    && ResultOf(t, Close(id)) == result && ResultOf(t, Start(id)) == result && ResultOf(t, Stop(id)) == result
  }

  /** The table is exactly what the calls so far say: session ids are given out in order, the listed
      sessions are the live ones, and those enabled are the capturing ones. So the
      close, start and stop handlers all answer that a session id is bad if that session is not live, and
      all succeed if it is. */
  lemma {:induction false} TableMeaning(calls: seq<Call>)
    ensures Records(AfterCalls(calls), calls)
    ensures forall id: nat :: Answers(AfterCalls(calls), id, 4) <==> !Live(calls, id)
    ensures forall id: nat :: Answers(AfterCalls(calls), id, 0) <==> Live(calls, id)
  {
    if calls == [] {
      assert Ids([]) == {};
    } else {
      var init, call := calls[..|calls|-1], calls[|calls|-1];
      TableMeaning(init);
      CallsKeep(init);
      assert init + [call] == calls;
      RecordsStep(AfterCalls(init), init, call);
    }
    BadIds(AfterCalls(calls), calls);
  }

  /** An open succeeds exactly for source 0 and output types 0 and 1, which is exactly when the session it
      numbers is live afterwards; otherwise it is answered with invalid arguments and changes nothing. */
  lemma OpenAnswers(calls: seq<Call>, source: int, outputType: nat)
    ensures var t, call := AfterCalls(calls), Open(source, outputType);
      var result, after := ResultOf(t, call), calls + [call];
      && (result == 0 <==> source == 0 && (outputType == 0 || outputType == 1))
      && (result == 0 <==> Live(after, |Opened(calls)|))
      && t.counter == |Opened(calls)| && (result == 0 <==> AfterCalls(after).counter == t.counter + 1)
      && (result != 0 ==> result == 5 && AfterCalls(after) == t)
  {
    var call := Open(source, outputType);
    assert (calls + [call])[..|calls|] == calls;
    hide Live, Opened;
    TableMeaning(calls);
    TableMeaning(calls + [call]);
    OneMoreCall(calls, call, |Opened(calls)|);
    CallsKeep(calls);
  }

  lemma RecordsStep(t: Table, init: seq<Call>, call: Call)
    requires TableInv(t) && Records(t, init)
    ensures Records(Handled(t, call), init + [call])
  {
    hide TableInv, Records, Handled;
    match call
    case Open(source, outputType) => RecordsOpen(t, init, source, outputType);
    case Close(id) => RecordsClose(t, init, id);
    case _ => RecordsEnable(t, init, call);
  }

  lemma BadIds(t: Table, calls: seq<Call>)
    requires Records(t, calls)
    ensures forall id: nat :: Answers(t, id, BAD_SESSION_ID) <==> !Live(calls, id)
    ensures forall id: nat :: Answers(t, id, SUCCESS) <==> Live(calls, id)
  {
    hide Live;
    forall id: nat
      ensures Answers(t, id, BAD_SESSION_ID) <==> !Live(calls, id)
      ensures Answers(t, id, SUCCESS) <==> Live(calls, id)
    {
      var k := IndexOfId(t.sessions, id);
      if k < |t.sessions| { assert t.sessions[k].id in Ids(t.sessions); } else { NoSuchId(t.sessions, id); }
    }
  }
}
