/** When fresh-sample requests are served, and what they are served from. The timetable below is
    written from the operations alone: it knows nothing of the request list or its countdowns. */
module MusicIdSchedule {
  import opened AudioProperties
  import opened MusicIdSpec

  // ----- the timetable -----

  function TicksIn(ops: seq<Op>): nat {
    if ops == [] then 0 else TicksIn(ops[..|ops|-1]) + (if ops[|ops|-1].Tick? then 1 else 0)
  }

  function Heard(ops: seq<Op>): seq<seq<byte>> {
    if ops == [] then []
    else Heard(ops[..|ops|-1]) + (match ops[|ops|-1] case Callback(data) => [data] case _ => [])
  }

  /** The k-th request ever made: when, for how long, and how many buffers had come before it. */
  function Issues(ops: seq<Op>): seq<Issue> {
    if ops == [] then []
    else
      var init := ops[..|ops|-1];
      Issues(init) + (match ops[|ops|-1] case Fresh(n) => [Issue(TicksIn(init), n, |Heard(init)|)] case _ => [])
  }

  /** A request of N seconds is due at the (N+1)-th tick after it was made. */
  function DueTick(i: Issue): nat { i.tick + i.length + 1 }

  datatype Service = Service(id: nat, length: nat, tick: nat)

  /** What the request list should hold for the k-th request while it is not yet due. */
  function Slot(issues: seq<Issue>, k: nat, tick: nat): Request
    requires k < |issues| && tick < DueTick(issues[k])
  {
    Request(k, issues[k].length, DueTick(issues[k]) - 1 - tick)
  }

  /** Requests still waiting after the given number of ticks, oldest first, with what remains. */
  function WaitingAt(issues: seq<Issue>, tick: nat): seq<Request> {
    if issues == [] then []
    else
      var k := |issues| - 1;
      var i := issues[k];
      WaitingAt(issues[..k], tick) + (if tick < DueTick(i) then [Slot(issues, k, tick)] else [])
  }

  /** What one tick serves, oldest first. */
  function ServedAt(issues: seq<Issue>, tick: nat): seq<Service> {
    if issues == [] then []
    else
      var k := |issues| - 1;
      ServedAt(issues[..k], tick) + (if DueTick(issues[k]) == tick then [Service(k, issues[k].length, tick)] else [])
  }

  /** Everything served up to and including the given tick, tick by tick. */
  function ServedBy(issues: seq<Issue>, tick: nat): seq<Service> {
    if tick == 0 then [] else ServedBy(issues, tick - 1) + ServedAt(issues, tick)
  }

  function Services(done: seq<Completion>): seq<Service> {
    if done == [] then []
    else var c := done[|done|-1]; Services(done[..|done|-1]) + [Service(c.id, c.length, c.tick)]
  }

  // ----- the request list follows the timetable -----

  ghost predicate ScheduleInv(s: State) {
    && s.counter == |s.issued|
    && (forall k :: 0 <= k < |s.issued| ==> s.issued[k].tick <= s.ticks)
    && s.requests == WaitingAt(s.issued, s.ticks)
    && Services(s.done) == ServedBy(s.issued, s.ticks)
  }

  lemma Snoc(rs: seq<Request>, r: Request)
    ensures if r.remaining == 0 then Rest(rs + [r]) == Rest(rs) && Due(rs + [r]) == Due(rs) + [r]
      else Rest(rs + [r]) == Rest(rs) + [r.(remaining := r.remaining - 1)] && Due(rs + [r]) == Due(rs)
  {
    assert (rs + [r])[..|rs|] == rs;
  }

  lemma CompleteSnoc(due: seq<Request>, r: Request, tick: nat, queue: seq<seq<byte>>, heard: nat)
    ensures Services(Complete(due + [r], tick, queue, heard))
         == Services(Complete(due, tick, queue, heard)) + [Service(r.id, r.length, tick)]
  {
    assert (due + [r])[..|due|] == due;
    var a, z := Complete(due, tick, queue, heard), Complete(due + [r], tick, queue, heard);
    assert z[..|z|-1] == a;
  }

  lemma LastWaits(issues: seq<Issue>, tick: nat)
    requires issues != []
    ensures var k := |issues| - 1;
      if tick < DueTick(issues[k]) then WaitingAt(issues, tick) == WaitingAt(issues[..k], tick) + [Slot(issues, k, tick)]
      else WaitingAt(issues, tick) == WaitingAt(issues[..k], tick)
  {}

  lemma LastServed(issues: seq<Issue>, tick: nat)
    requires issues != []
    ensures var k := |issues| - 1;
      if DueTick(issues[k]) == tick
      then ServedAt(issues, tick) == ServedAt(issues[..k], tick) + [Service(k, issues[k].length, tick)]
      else ServedAt(issues, tick) == ServedAt(issues[..k], tick)
  {}

  /** One tick of the loop moves every waiting request one closer and takes out those that are due. */
  lemma {:induction false} CountDown(issues: seq<Issue>, tick: nat)
    ensures Rest(WaitingAt(issues, tick)) == WaitingAt(issues, tick + 1)
  {
    if issues == [] {
      assert Rest([]) == [];
    } else {
      hide Rest, WaitingAt, Due;
      var k := |issues| - 1;
      CountDown(issues[..k], tick);
      LastWaits(issues, tick);
      LastWaits(issues, tick + 1);
      if tick < DueTick(issues[k]) { Snoc(WaitingAt(issues[..k], tick), Slot(issues, k, tick)); }
    }
  }

  function ServedFrom(rs: seq<Request>, tick: nat, queue: seq<seq<byte>>, heard: nat): seq<Service> {
    Services(Complete(Due(rs), tick, queue, heard))
  }

  lemma ServedFromSnoc(rs: seq<Request>, r: Request, tick: nat, queue: seq<seq<byte>>, heard: nat)
    ensures ServedFrom(rs + [r], tick, queue, heard)
      == if r.remaining == 0 then ServedFrom(rs, tick, queue, heard) + [Service(r.id, r.length, tick)]
         else ServedFrom(rs, tick, queue, heard)
  {
    Snoc(rs, r);
    CompleteSnoc(Due(rs), r, tick, queue, heard);
    hide Due, Rest, Complete, Services;
  }

  lemma NothingDue(tick: nat, queue: seq<seq<byte>>, heard: nat)
    ensures ServedFrom(WaitingAt([], tick), tick + 1, queue, heard) == [] && ServedAt([], tick + 1) == []
  {}

  lemma {:induction false} DueNow(issues: seq<Issue>, tick: nat, queue: seq<seq<byte>>, heard: nat)
    ensures ServedFrom(WaitingAt(issues, tick), tick + 1, queue, heard) == ServedAt(issues, tick + 1)
  {
    hide ServedFrom, WaitingAt, ServedAt;
    if issues == [] {
      NothingDue(tick, queue, heard);
    } else {
      var k := |issues| - 1;
      LastWaits(issues, tick);
      LastServed(issues, tick + 1);
      DueNow(issues[..k], tick, queue, heard);
      if tick < DueTick(issues[k]) {
        ServedFromSnoc(WaitingAt(issues[..k], tick), Slot(issues, k, tick), tick + 1, queue, heard);
      }
    }
  }

  lemma {:induction false} ServicesJoin(a: seq<Completion>, b: seq<Completion>)
    ensures Services(a + b) == Services(a) + Services(b)
    decreases |b|
  {
    if b == [] {
      assert a + b == a;
    } else {
      ServicesJoin(a, b[..|b|-1]);
      assert (a + b)[..|a + b|-1] == a + b[..|b|-1];
    }
  }

  /** A new request is due only later, so it changes nothing already served. */
  lemma {:induction false} NewIsLater(issues: seq<Issue>, i: Issue, tick: nat)
    requires tick < DueTick(i)
    ensures ServedBy(issues + [i], tick) == ServedBy(issues, tick)
    ensures WaitingAt(issues + [i], tick) == WaitingAt(issues, tick) + [Slot(issues + [i], |issues|, tick)]
  {
    assert (issues + [i])[..|issues|] == issues;
    if tick > 0 {
      NewIsLater(issues, i, tick - 1);
    }
  }

  lemma ScheduleStep(s: State, op: Op)
    requires ScheduleInv(s)
    ensures ScheduleInv(Apply(s, op))
  {
    match op
    case Fresh(n) =>
      hide WaitingAt, ServedBy, Services, LimitFor;
      NewIsLater(s.issued, Issue(s.ticks, n, |s.received|), s.ticks);
    case Tick => ScheduleTick(s);
    case _ => hide WaitingAt, ServedBy, Services, LimitFor, Excess, DropCount, Bytes;
  }

  lemma TickFields(s: State)
    ensures var t := TickStep(s);
      && t.counter == s.counter && t.issued == s.issued && t.ticks == s.ticks + 1 && t.requests == Rest(s.requests)
      && t.done == s.done + Complete(Due(s.requests), s.ticks + 1, s.queue, |s.received|)
  {}

  lemma ScheduleTick(s: State)
    requires ScheduleInv(s)
    ensures ScheduleInv(TickStep(s))
  {
    TickFields(s);
    hide TickStep, Rest, Due, Complete, WaitingAt, ServedBy, Services, ServedAt;
    CountDown(s.issued, s.ticks);
    DueNow(s.issued, s.ticks, s.queue, |s.received|);
    ServicesJoin(s.done, Complete(Due(s.requests), s.ticks + 1, s.queue, |s.received|));
    ServedNext(s.issued, s.ticks);
  }

  lemma ServedNext(issues: seq<Issue>, tick: nat)
    ensures ServedBy(issues, tick + 1) == ServedBy(issues, tick) + ServedAt(issues, tick + 1)
  {}

  /** The recorded histories are those of the operations. */
  ghost predicate Logs(s: State, ops: seq<Op>) {
    s.ticks == TicksIn(ops) && s.received == Heard(ops) && s.issued == Issues(ops)
  }

  lemma LogStep(s: State, init: seq<Op>, op: Op)
    requires Logs(s, init)
    ensures Logs(Apply(s, op), init + [op])
  {
    assert (init + [op])[..|init|] == init;
    hide LimitFor, Excess, DropCount, Bytes, Rest, Due, Complete;
  }

  lemma {:induction false} LogSnoc(input: Properties, ops: seq<Op>)
    ensures ScheduleInv(After(Start(input), ops)) && Logs(After(Start(input), ops), ops)
  {
    if ops != [] {
      var init, op := ops[..|ops|-1], ops[|ops|-1];
      LogSnoc(input, init);
      AfterSnoc(Start(input), init, op);
      assert init + [op] == ops;
      hide *;
      ScheduleStep(After(Start(input), init), op);
      LogStep(After(Start(input), init), init, op);
    }
  }

  // ----- what the timetable means -----

  function Expected(issues: seq<Issue>, k: nat): Service
    requires k < |issues|
  {
    Service(k, issues[k].length, DueTick(issues[k]))
  }

  predicate Before(x: Service, y: Service) {
    x.tick < y.tick || (x.tick == y.tick && x.id < y.id)
  }

  ghost predicate InOrder(q: seq<Service>) {
    forall i, j :: 0 <= i < j < |q| ==> Before(q[i], q[j])
  }

  lemma {:induction false} ServedAtMeans(issues: seq<Issue>, tick: nat)
    ensures var q := ServedAt(issues, tick);
      && InOrder(q)
      && (forall x :: x in q ==> x.id < |issues| && x == Expected(issues, x.id) && x.tick == tick)
      && (forall k :: 0 <= k < |issues| && DueTick(issues[k]) == tick ==> Expected(issues, k) in q)
  {
    if issues != [] {
      var k := |issues| - 1;
      ServedAtMeans(issues[..k], tick);
      var q, p := ServedAt(issues, tick), ServedAt(issues[..k], tick);
      forall m | 0 <= m < k && DueTick(issues[m]) == tick ensures Expected(issues, m) in q {
        assert Expected(issues[..k], m) in p;
      }
    }
  }

  lemma {:induction false} ServedByMeans(issues: seq<Issue>, tick: nat)
    ensures var q := ServedBy(issues, tick);
      && InOrder(q)
      && (forall x :: x in q ==> x.id < |issues| && x == Expected(issues, x.id) && x.tick <= tick)
      && (forall k :: 0 <= k < |issues| && DueTick(issues[k]) <= tick ==> Expected(issues, k) in q)
  {
    if tick == 0 {
      assert ServedBy(issues, tick) == [];
    } else {
      hide ServedBy, ServedAt;
      ServedByMeans(issues, tick - 1);
      ServedAtMeans(issues, tick);
      ServedNext(issues, tick - 1);
      OrderJoin(ServedBy(issues, tick - 1), ServedAt(issues, tick));
    }
  }

  lemma OrderJoin(a: seq<Service>, b: seq<Service>)
    requires InOrder(a) && InOrder(b)
    requires forall x, y :: x in a && y in b ==> x.tick < y.tick
    ensures InOrder(a + b)
  {
    forall i, j | 0 <= i < j < |a + b| ensures Before((a + b)[i], (a + b)[j]) {
      if i < |a| <= j { assert a[i] in a && b[j - |a|] in b; }
    }
  }

  ghost predicate Ascending(q: seq<Request>) {
    forall i, j :: 0 <= i < j < |q| ==> q[i].id < q[j].id
  }

  ghost predicate OnlyWaiting(q: seq<Request>, issues: seq<Issue>, tick: nat) {
    forall r :: r in q ==> r.id < |issues| && tick < DueTick(issues[r.id]) && r == Slot(issues, r.id, tick)
  }

  ghost predicate AllWaiting(q: seq<Request>, issues: seq<Issue>, tick: nat) {
    forall k :: 0 <= k < |issues| && tick < DueTick(issues[k]) ==> Slot(issues, k, tick) in q
  }

  /** q lists, in the order made, exactly the requests not yet due. */
  ghost predicate ListsWaiting(q: seq<Request>, issues: seq<Issue>, tick: nat) {
    Ascending(q) && OnlyWaiting(q, issues, tick) && AllWaiting(q, issues, tick)
  }

  lemma StillOnly(q: seq<Request>, issues: seq<Issue>, tick: nat)
    requires issues != [] && OnlyWaiting(q, issues[..|issues|-1], tick)
    ensures OnlyWaiting(q, issues, tick) && forall r :: r in q ==> r.id < |issues| - 1
  {}

  lemma StillAll(q: seq<Request>, issues: seq<Issue>, tick: nat, p: seq<Request>)
    requires issues != [] && AllWaiting(q, issues[..|issues|-1], tick) && forall r :: r in q ==> r in p
    requires tick < DueTick(issues[|issues|-1]) ==> Slot(issues, |issues| - 1, tick) in p
    ensures AllWaiting(p, issues, tick)
  {
    forall m | 0 <= m < |issues| && tick < DueTick(issues[m]) ensures Slot(issues, m, tick) in p {
      if m < |issues| - 1 { assert Slot(issues[..|issues|-1], m, tick) in q; }
    }
  }

  lemma OneMoreAscending(q: seq<Request>, r: Request)
    requires Ascending(q) && forall x :: x in q ==> x.id < r.id
    ensures Ascending(q + [r])
  {}

  lemma ListsOneMore(q: seq<Request>, issues: seq<Issue>, tick: nat)
    requires issues != [] && ListsWaiting(q, issues[..|issues|-1], tick)
    ensures var k := |issues| - 1;
      ListsWaiting(if tick < DueTick(issues[k]) then q + [Slot(issues, k, tick)] else q, issues, tick)
  {
    var k := |issues| - 1;
    StillOnly(q, issues, tick);
    if tick < DueTick(issues[k]) {
      var r := Slot(issues, k, tick);
      OneMoreAscending(q, r);
      StillAll(q, issues, tick, q + [r]);
      hide Ascending, AllWaiting;
    } else {
      StillAll(q, issues, tick, q);
      hide Ascending, AllWaiting, OnlyWaiting;
    }
  }

  lemma {:induction false} WaitingMeans(issues: seq<Issue>, tick: nat)
    ensures ListsWaiting(WaitingAt(issues, tick), issues, tick)
  {
    if issues != [] {
      WaitingMeans(issues[..|issues|-1], tick);
      LastWaits(issues, tick);
      hide WaitingAt, ListsWaiting;
      ListsOneMore(WaitingAt(issues[..|issues|-1], tick), issues, tick);
    }
  }

  /** In every run, what has been served so far is exactly what was due by now: each request of N
      seconds once, at the (N+1)-th tick after it was made, and those of one tick in the order made. */
  lemma ServedExactlyOnce(input: Properties, ops: seq<Op>)
    ensures var served, issues := Services(After(Start(input), ops).done), Issues(ops);
      && InOrder(served)
      && (forall x :: x in served ==> x.id < |issues| && x == Expected(issues, x.id))
      && (forall k :: 0 <= k < |issues| ==> (Expected(issues, k) in served <==> DueTick(issues[k]) <= TicksIn(ops)))
  {
    LogSnoc(input, ops);
    ServedByMeans(Issues(ops), TicksIn(ops));
  }

  /** The requests still listed are exactly those not yet due, in the order made, with the ticks that
      remain. */
  lemma PendingExactly(input: Properties, ops: seq<Op>)
    ensures ListsWaiting(After(Start(input), ops).requests, Issues(ops), TicksIn(ops))
  {
    LogSnoc(input, ops);
    WaitingMeans(Issues(ops), TicksIn(ops));
  }
}
