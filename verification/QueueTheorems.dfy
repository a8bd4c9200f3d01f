/** Properties of every run of the queue protocol, whatever the interleaving. */
module QueueTheorems {
  import opened AudioProperties
  import opened QueueProtocol
  import opened QueueInvariants

  lemma Reachable(limit: nat, run: seq<Label>)
    requires Legal(Init(limit), run)
    ensures Inv(Exec(Init(limit), run))
  {
    InitInv(limit);
    RunInv(Init(limit), run);
  }

  ghost predicate IsReachable(s: State) {
    exists limit: nat, run: seq<Label> :: Legal(Init(limit), run) && Exec(Init(limit), run) == s
  }

  lemma ReachableInv(s: State)
    requires IsReachable(s)
    ensures Inv(s)
  {
    var limit: nat, run: seq<Label> :| Legal(Init(limit), run) && Exec(Init(limit), run) == s;
    Reachable(limit, run);
  }

  lemma ReachableStep(s: State, l: Label)
    requires IsReachable(s) && Enabled(s, l)
    ensures IsReachable(Next(s, l))
  {
    var limit: nat, run: seq<Label> :| Legal(Init(limit), run) && Exec(Init(limit), run) == s;
    ExecAppend(Init(limit), run, l);
  }

  lemma InitReachable(limit: nat)
    ensures IsReachable(Init(limit))
  {
    assert Legal(Init(limit), []) && Exec(Init(limit), []) == Init(limit);
  }

  // ----- wakeups -----

  predicate ConsumerEnabled(s: State) {
    Enabled(s, QueueSection) || Enabled(s, Wake) || Enabled(s, SwapWoken) || Enabled(s, BeginPass)
    || Enabled(s, Deliver) || Enabled(s, Unlock) || Enabled(s, ClearOutgoing)
  }

  /** No lost wakeup. A blocked consumer that asked to be notified has nothing to take; one whose
      request was answered has data and exactly one post waiting for it. So the consumer is stuck
      exactly when it sleeps on an empty incoming queue. */
  lemma NoLostWakeup(limit: nat, run: seq<Label>)
    requires Legal(Init(limit), run)
    ensures var t := Exec(Init(limit), run);
      && (t.pc == Blocked && t.notify ==> t.incoming == [] && t.semaphore == 0)
      && (t.pc == Blocked && !t.notify ==> t.incoming != [] && t.semaphore == 1)
      && (t.pc != Blocked ==> t.semaphore == 0)
      && (!ConsumerEnabled(t) <==> t.pc == Blocked && t.incoming == [])
  {
    Reachable(limit, run);
  }

  /** Every swap, after a wake or without one, moves a non-empty incoming queue into an empty
      outgoing one, so the flush inside swap_queues never frees anything. */
  lemma SwapNeverFlushes(limit: nat, run: seq<Label>, l: Label)
    requires Legal(Init(limit), run) && l in {QueueSection, SwapWoken}
    requires Enabled(Exec(Init(limit), run), l)
    ensures var s := Exec(Init(limit), run); var t := Next(s, l);
      && t.freed == s.freed && t.refcount == s.refcount && s.outgoing == []
      && (l == SwapWoken ==> t.outgoing != [])
      && (t.pc == Blocked || (t.outgoing == s.incoming && t.incoming == [] && t.outgoing != []))
  {
    Reachable(limit, run);
  }

  // ----- progress -----

  predicate Consumers(l: Label) {
    l.QueueSection? || l.Wake? || l.SwapWoken? || l.BeginPass? || l.Deliver? || l.Unlock? || l.ClearOutgoing?
  }

  /** Callbacks the open pass has still to make. */
  function CallsLeft(s: State): nat {
    if !s.pc.Pass? || s.clients == [] || s.pc.buffer >= |s.outgoing| then 0
    else
      var all := (|s.outgoing| - s.pc.buffer) * |s.clients|;
      if s.pc.client <= all then all - s.pc.client else 0
  }

  /** Steps of a whole pass over n buffers and m clients. */
  function PassLength(n: nat, m: nat): nat { n * m + 3 }

  /** Steps from an empty outgoing queue until the consumer sleeps: swap, pass, and find nothing. */
  function TakeLength(n: nat, m: nat): nat { if n == 0 then 1 else 1 + PassLength(n, m) + 1 }

  /** How many steps the consumer has before it if nobody else moves. */
  function Work(s: State): nat {
    var i, o, m := |s.incoming|, |s.outgoing|, |s.clients|;
    match s.pc
    case Check => (if o == 0 then 0 else PassLength(o, m)) + TakeLength(i, m)
    case Pass(_, _) => CallsLeft(s) + 2 + TakeLength(i, m)
    case Clear => 1 + TakeLength(i, m)
    case Blocked => if i == 0 then 0 else 2 + PassLength(i, m) + 1
    case Woken => 1 + PassLength(i, m) + 1
  }

  lemma CallsStep(n: nat, m: nat, i: nat, j: nat)
    requires i < n && j < m
    ensures 0 < (n - i) * m - j && (n - i) * m == (n - (i + 1)) * m + m
  {
    var k := n - i;
    assert k * m == (k - 1) * m + m;
  }

  lemma DeliverWork(s: State)
    requires ClientInv(s) && Enabled(s, Deliver)
    ensures CallsLeft(s) > 0 && CallsLeft(Next(s, Deliver)) == CallsLeft(s) - 1
  {
    CallsStep(|s.outgoing|, |s.clients|, s.pc.buffer, s.pc.client);
    var t := Next(s, Deliver);
    if t.pc.client != 0 { assert t.pc.client <= |s.clients| - 1; }
  }

  lemma StreamKept(s: State, l: Label)
    requires WakeInv(s) && Consumers(l) && Enabled(s, l)
    ensures Stream(Next(s, l)) == Stream(s)
  {
    var t := Next(s, l);
    if l.QueueSection? || l.SwapWoken? {
      assert s.processed + [] + s.incoming == s.processed + s.incoming + [];
    } else {
      assert t.processed + t.outgoing == s.processed + s.outgoing;
    }
  }

  lemma BeginWork(s: State)
    requires Enabled(s, BeginPass)
    ensures Work(s) > 0 && Work(Next(s, BeginPass)) == Work(s) - 1
  {
    var t := Next(s, BeginPass);
    assert t.pc == Pass(0, 0) && t.clients == s.clients && t.outgoing == s.outgoing && t.incoming == s.incoming;
    assert CallsLeft(t) == |s.outgoing| * |s.clients|;
  }

  lemma PassWork(s: State, l: Label)
    requires ClientInv(s) && (l.Deliver? || l.Unlock?) && Enabled(s, l)
    ensures Work(s) > 0 && Work(Next(s, l)) == Work(s) - 1
  {
    hide TakeLength, CallsLeft;
    if l.Deliver? { DeliverWork(s); } else { NoCallsLeft(s); }
  }

  lemma NoCallsLeft(s: State)
    requires DeliveryDone(s)
    ensures CallsLeft(s) == 0
  {}

  lemma QueueWork(s: State, l: Label)
    requires WakeInv(s) && (l.QueueSection? || l.Wake? || l.SwapWoken? || l.ClearOutgoing?) && Enabled(s, l)
    ensures Work(s) > 0 && Work(Next(s, l)) == Work(s) - 1
  {
    hide PassLength, CallsLeft;
  }

  /** Every consumer step is one of those counted. */
  lemma ConsumerStep(s: State, l: Label)
    requires Inv(s) && Consumers(l) && Enabled(s, l)
    ensures Work(s) > 0 && Work(Next(s, l)) == Work(s) - 1 && Stream(Next(s, l)) == Stream(s)
  {
    StreamKept(s, l);
    hide Next, Work, Stream, WakeInv, ClientInv, OrderInv, BoundInv, LifeInv;
    if l.BeginPass? {
      BeginWork(s);
    } else if l.Deliver? || l.Unlock? {
      PassWork(s, l);
    } else {
      QueueWork(s, l);
    }
  }

  lemma ConsumerStuck(s: State)
    requires Inv(s)
    ensures Work(s) == 0 <==> !ConsumerEnabled(s)
    ensures Work(s) == 0 ==> s.pc == Blocked && s.outgoing == [] && s.incoming == [] && s.processed == Stream(s)
  {}

  /** The one step the consumer can take. */
  function ConsumerLabel(s: State): Label {
    match s.pc
    case Check => if s.outgoing == [] then QueueSection else BeginPass
    case Pass(_, _) => if DeliveryDone(s) then Unlock else Deliver
    case Clear => ClearOutgoing
    case Blocked => Wake
    case Woken => SwapWoken
  }

  ghost predicate ConsumerRun(run: seq<Label>) {
    forall k :: 0 <= k < |run| ==> Consumers(run[k])
  }

  /** Progress. From every reachable state the consumer alone takes exactly Work(s) steps, whatever the
      state of queues, semaphore and pass: no run of it is longer, and a run of it is over only when it
      sleeps with both queues empty, everything that was queued having been processed in order. */
  lemma {:induction false} ConsumerDrains(s: State, run: seq<Label>)
    requires Inv(s) && Legal(s, run) && ConsumerRun(run)
    ensures var t := Exec(s, run);
      && |run| <= Work(s) && Work(t) == Work(s) - |run|
      && (|run| == Work(s) <==> !ConsumerEnabled(t))
      && (|run| == Work(s) ==>
            t.pc == Blocked && t.outgoing == [] && t.incoming == [] && t.processed == Stream(s))
    decreases run
  {
    hide Inv, Work, Stream, Next, Enabled, ConsumerEnabled;
    if run == [] {
      ConsumerStuck(s);
    } else {
      assert Consumers(run[0]);
      ConsumerStep(s, run[0]);
      Step(s, run[0]);
      ConsumerDrains(Next(s, run[0]), run[1..]);
    }
  }

  /** And such a run exists. */
  lemma {:induction false} ConsumerCanDrain(s: State) returns (run: seq<Label>)
    requires Inv(s)
    ensures Legal(s, run) && ConsumerRun(run) && |run| == Work(s)
    decreases Work(s)
  {
    hide Inv, Work, Next, Stream;
    ConsumerStuck(s);
    if Work(s) == 0 {
      run := [];
    } else {
      var l := ConsumerLabel(s);
      CanStep(s);
      ConsumerStep(s, l);
      Step(s, l);
      var rest := ConsumerCanDrain(Next(s, l));
      run := [l] + rest;
      assert run[1..] == rest;
    }
  }

  lemma CanStep(s: State)
    requires Inv(s) && ConsumerEnabled(s)
    ensures Consumers(ConsumerLabel(s)) && Enabled(s, ConsumerLabel(s))
  {}

  /** Whatever happened before, if everybody else pauses the consumer gets through what is queued. */
  lemma QueuedIsProcessed(limit: nat, run: seq<Label>) returns (more: seq<Label>)
    requires Legal(Init(limit), run)
    ensures var s := Exec(Init(limit), run);
      && Legal(s, more) && ConsumerRun(more)
      && var t := Exec(s, more);
      t.pc == Blocked && t.outgoing == [] && t.incoming == [] && t.processed == s.processed + s.outgoing + s.incoming
  {
    Reachable(limit, run);
    more := ConsumerCanDrain(Exec(Init(limit), run));
    ConsumerDrains(Exec(Init(limit), run), more);
  }

  // ----- order -----

  /** The sizes of the buffers handed to add_data, in order. */
  function Added(run: seq<Label>): seq<nat> {
    if run == [] then [] else AddedBy(run[0]) + Added(run[1..])
  }

  function AddedBy(l: Label): seq<nat> {
    match l case Add(n) => [n] case _ => []
  }

  ghost predicate NeverOverflows(s: State, run: seq<Label>)
    requires Legal(s, run)
    decreases run
  {
    run == [] || (!(run[0].Add? && Overflows(s)) && NeverOverflows(Next(s, run[0]), run[1..]))
  }

  lemma SizesGrow(s: State, l: Label)
    requires Enabled(s, l)
    ensures Next(s, l).sizes == s.sizes + AddedBy(l)
  {}

  lemma {:induction false} AddsAreSizes(s: State, run: seq<Label>)
    requires Legal(s, run)
    ensures Exec(s, run).sizes == s.sizes + Added(run)
    decreases run
  {
    hide Next, Enabled, AddedBy;
    if run != [] {
      SizesGrow(s, run[0]);
      AddsAreSizes(Next(s, run[0]), run[1..]);
      assert s.sizes + (AddedBy(run[0]) + Added(run[1..])) == s.sizes + AddedBy(run[0]) + Added(run[1..]);
    }
  }

  function Lost(s: State): int { |s.sizes| - |Stream(s)| }

  lemma LostStep(s: State, l: Label)
    requires Inv(s) && Enabled(s, l)
    ensures Lost(Next(s, l)) == Lost(s) + (if l.Add? then |Flushed(s)| else 0)
  {}

  lemma {:induction false} LostRun(s: State, run: seq<Label>)
    requires Inv(s) && Legal(s, run)
    ensures Lost(Exec(s, run)) >= Lost(s)
    ensures NeverOverflows(s, run) <==> Lost(Exec(s, run)) == Lost(s)
    decreases run
  {
    if run != [] {
      Step(s, run[0]);
      LostStep(s, run[0]);
      LostRun(Next(s, run[0]), run[1..]);
    }
  }

  lemma {:induction false} FullIncreasing(q: seq<BufferId>, n: nat)
    requires Increasing(q) && (forall k :: 0 <= k < |q| ==> q[k] < n) && |q| == n
    ensures q == Upto(n)
    decreases n
  {
    if n > 0 {
      var r := q[..n-1];
      if n > 1 { assert r[n-2] < q[n-1]; }
      FullIncreasing(r, n - 1);
      assert q[n-1] == n - 1 by { if n > 1 { assert q[n-2] == r[n-2] == n - 2; } }
    }
  }

  /** Conservation. The buffers ever added are the taken and overflowed batches and the incoming
      queue, in order; processed ++ outgoing are the taken ones; what is missing is whole incoming
      queues that had grown past the limit. */
  lemma FifoConservation(limit: nat, run: seq<Label>)
    requires Legal(Init(limit), run)
    ensures var t := Exec(Init(limit), run);
      && t.sizes == Added(run)
      && AllIds(t.batches) + t.incoming == Upto(|Added(run)|)
      && TakenIds(t.batches) == t.processed + t.outgoing
      && (forall k :: 0 <= k < |t.batches| && t.batches[k].Overflowed? ==> |t.batches[k].ids| > t.batches[k].limit)
      && Increasing(t.processed + t.outgoing + t.incoming)
  {
    Reachable(limit, run);
    AddsAreSizes(Init(limit), run);
  }

  /** Nothing is lost exactly when no add ever found the incoming queue over its limit. */
  lemma FifoExact(limit: nat, run: seq<Label>)
    requires Legal(Init(limit), run)
    ensures var t := Exec(Init(limit), run);
      t.processed + t.outgoing + t.incoming == Upto(|Added(run)|) <==> NeverOverflows(Init(limit), run)
  {
    Reachable(limit, run);
    InitInv(limit);
    LostRun(Init(limit), run);
    AddsAreSizes(Init(limit), run);
    var t := Exec(Init(limit), run);
    if |Stream(t)| == |t.sizes| { FullIncreasing(Stream(t), |t.sizes|); }
  }

  // ----- the limit in force -----

  /** The argument of the last property change in the run, or the limit it began with. */
  function LastLimit(limit: nat, run: seq<Label>): nat {
    if run == [] then limit
    else match run[|run|-1]
      case SetLimit(n) => n
      case _ => LastLimit(limit, run[..|run|-1])
  }

  lemma {:induction false} LastLimitHead(limit: nat, run: seq<Label>)
    requires run != []
    ensures LastLimit(limit, run) == LastLimit(LastLimit(limit, run[..1]), run[1..])
  {
    var init := run[..|run|-1];
    if |run| > 1 && !run[|run|-1].SetLimit? {
      LastLimitHead(limit, init);
      assert init[..1] == run[..1] && init[1..] == run[1..][..|run|-2];
    } else if |run| == 1 {
      assert run[..1] == run;
    }
  }

  lemma LimitStep(s: State, l: Label)
    requires Enabled(s, l)
    ensures Next(s, l).limit == if l.SetLimit? then l.limit else s.limit
  {}

  lemma {:induction false} LimitRun(s: State, run: seq<Label>)
    requires Legal(s, run)
    ensures Exec(s, run).limit == LastLimit(s.limit, run)
    decreases run
  {
    hide Next, Enabled;
    if run != [] {
      LimitStep(s, run[0]);
      LimitRun(Next(s, run[0]), run[1..]);
      LastLimitHead(s.limit, run);
      assert run[..1] == [run[0]] && [run[0]][..0] == [];
    }
  }

  lemma {:induction false} LegalPrefix(s: State, run: seq<Label>, k: nat)
    requires Legal(s, run) && k <= |run|
    ensures Legal(s, run[..k])
    ensures k < |run| ==> Legal(s, run[..k+1])
    ensures k < |run| ==> Enabled(Exec(s, run[..k]), run[k]) && Exec(s, run[..k+1]) == Next(Exec(s, run[..k]), run[k])
    decreases run
  {
    hide Next, Enabled;
    if k > 0 {
      LegalPrefix(Next(s, run[0]), run[1..], k - 1);
      assert run[..k][1..] == run[1..][..k-1] && run[..k][0] == run[0];
    }
    if k < |run| {
      ExecAppendPrefix(s, run, k);
    }
  }

  lemma ExecAppendPrefix(s: State, run: seq<Label>, k: nat)
    requires Legal(s, run) && k < |run| && Legal(s, run[..k])
    requires k > 0 ==> Legal(Next(s, run[0]), run[1..][..k-1])
    requires k > 0 ==> Enabled(Exec(Next(s, run[0]), run[1..][..k-1]), run[k])
    ensures Enabled(Exec(s, run[..k]), run[k])
    ensures Legal(s, run[..k+1]) && Exec(s, run[..k+1]) == Next(Exec(s, run[..k]), run[k])
  {
    hide Next, Enabled;
    if k > 0 { assert run[..k][1..] == run[1..][..k-1]; }
    assert run[..k+1] == run[..k] + [run[k]];
    ExecAppend(s, run[..k], run[k]);
  }

  /** The limit in force is always the one last asked for. */
  lemma LimitInForce(limit: nat, run: seq<Label>)
    requires Legal(Init(limit), run)
    ensures Exec(Init(limit), run).limit == LastLimit(limit, run)
  {
    LimitRun(Init(limit), run);
  }

  /** The i-th step of the run is an add that finds the incoming queue longer than the limit last asked
      for. */
  ghost predicate FindsTooMany(limit: nat, run: seq<Label>, i: nat)
    requires Legal(Init(limit), run) && i < |run|
  {
    LegalPrefix(Init(limit), run, i);
    run[i].Add? && |Exec(Init(limit), run[..i]).incoming| > LastLimit(limit, run[..i])
  }

  /** The batch is the queue that the i-th step, an add, found over the limit then in force. */
  ghost predicate RecordedAt(limit: nat, run: seq<Label>, i: nat, batch: Batch)
    requires Legal(Init(limit), run) && i < |run|
  {
    LegalPrefix(Init(limit), run, i);
    FindsTooMany(limit, run, i) && batch == Overflowed(Exec(Init(limit), run[..i]).incoming, LastLimit(limit, run[..i]))
  }

  /** Each overflowed batch is the queue some such add found, with the limit then in force. */
  lemma {:induction false} OverflowRecordsLimit(limit: nat, run: seq<Label>, k: nat)
    requires Legal(Init(limit), run)
    requires k < |Exec(Init(limit), run).batches| && Exec(Init(limit), run).batches[k].Overflowed?
    ensures exists i: nat :: i < |run| && RecordedAt(limit, run, i, Exec(Init(limit), run).batches[k])
    decreases |run|
  {
    hide Next, Enabled, RecordedAt;
    if run != [] {
      var n, batch := |run| - 1, Exec(Init(limit), run).batches[k];
      LegalPrefix(Init(limit), run, n);
      assert run[..n+1] == run;
      var s := Exec(Init(limit), run[..n]);
      BatchStep(s, run[n]);
      hide Legal, Exec;
      if k < |s.batches| {
        OverflowRecordsLimit(limit, run[..n], k);
        var i: nat :| i < n && RecordedAt(limit, run[..n], i, batch);
        SameRecord(limit, run, n, i, batch);
      } else {
        LimitInForce(limit, run[..n]);
        RecordsLast(limit, run, batch);
      }
    }
  }

  lemma SameRecord(limit: nat, run: seq<Label>, n: nat, i: nat, batch: Batch)
    requires Legal(Init(limit), run) && i < n <= |run| && Legal(Init(limit), run[..n])
    requires RecordedAt(limit, run[..n], i, batch)
    ensures RecordedAt(limit, run, i, batch)
  {
    hide Next, Enabled, Legal, Exec;
    assert run[..n][..i] == run[..i] && run[..n][i] == run[i];
  }

  lemma RecordsLast(limit: nat, run: seq<Label>, batch: Batch)
    requires Legal(Init(limit), run) && run != [] && Legal(Init(limit), run[..|run|-1])
    requires var s := Exec(Init(limit), run[..|run|-1]);
      && run[|run|-1].Add? && |s.incoming| > s.limit == LastLimit(limit, run[..|run|-1])
      && batch == Overflowed(s.incoming, s.limit)
    ensures RecordedAt(limit, run, |run| - 1, batch)
  {
    hide Next, Enabled, Legal, Exec;
  }

  /** An add flushes the queue, and records it, exactly when the queue is longer than the limit. */
  lemma BatchStep(s: State, l: Label)
    requires Enabled(s, l)
    ensures var t := Next(s, l);
      if l.Add? && |s.incoming| > s.limit then
        t.batches == s.batches + [Overflowed(s.incoming, s.limit)] && t.incoming == [|s.sizes|]
      else
        && s.batches <= t.batches
        && forall k :: |s.batches| <= k < |t.batches| ==> t.batches[k].Taken?
  {}

  /** So nothing is lost exactly when no add of the run finds too many. */
  lemma {:induction false} NeverOverflowsExactly(limit: nat, run: seq<Label>)
    requires Legal(Init(limit), run)
    ensures NeverOverflows(Init(limit), run) <==> forall i: nat :: i < |run| ==> !FindsTooMany(limit, run, i)
  {
    OverflowsInRun(Init(limit), run);
    forall i: nat | i < |run| ensures AddFits(Init(limit), run, i) <==> !FindsTooMany(limit, run, i) {
      LegalPrefix(Init(limit), run, i);
      LimitInForce(limit, run[..i]);
    }
    hide AddFits, FindsTooMany, NeverOverflows, Legal;
  }

  ghost predicate AddFits(s: State, run: seq<Label>, i: nat)
    requires i < |run|
  {
    run[i].Add? && Legal(s, run[..i]) ==> !Overflows(Exec(s, run[..i]))
  }

  lemma {:induction false} OverflowsInRun(s: State, run: seq<Label>)
    requires Legal(s, run)
    ensures NeverOverflows(s, run) <==> forall i: nat :: i < |run| ==> AddFits(s, run, i)
    decreases run
  {
    if run != [] {
      var t, rest := Next(s, run[0]), run[1..];
      OverflowsInRun(t, rest);
      assert run[..0] == [];
      hide Next, Overflows;
      assert AddFits(s, run, 0) <==> !(run[0].Add? && Overflows(s));
      forall i: nat | i < |rest| ensures AddFits(s, run, i + 1) <==> AddFits(t, rest, i) {
        assert run[..i+1][1..] == rest[..i] && run[..i+1][0] == run[0];
      }
      hide AddFits;
      if forall i: nat :: i < |run| ==> AddFits(s, run, i) {
        forall i: nat | i < |rest| ensures AddFits(t, rest, i) { assert AddFits(s, run, i + 1); }
      }
      if NeverOverflows(s, run) {
        forall i: nat | i < |run| ensures AddFits(s, run, i) {
          if i > 0 { assert AddFits(t, rest, i - 1); }
        }
      }
    }
  }

  // ----- delivery -----

  function IndexOf(clients: seq<ClientId>, c: ClientId): nat
    requires c in clients
    ensures IndexOf(clients, c) < |clients| && clients[IndexOf(clients, c)] == c
  {
    if clients[0] == c then 0 else 1 + IndexOf(clients[1..], c)
  }

  /** How many buffers of the outgoing queue client c has been handed. */
  function Reached(s: State, c: ClientId): (n: nat)
    requires c in s.clients
    ensures n <= |s.outgoing|
  {
    match s.pc
    case Pass(i, j) => if i >= |s.outgoing| then |s.outgoing| else if IndexOf(s.clients, c) < j then i + 1 else i
    case Clear => |s.outgoing|
    case _ => 0
  }

  /** The processed sequence as far as client c has seen it. */
  function Seen(s: State, c: ClientId): seq<BufferId>
    requires c in s.clients
  {
    s.processed + s.outgoing[..Reached(s, c)]
  }

  /** From s to t, client c was handed exactly what became processed for it. */
  ghost predicate Follows(s: State, t: State, c: ClientId) {
    && c in s.clients && c in t.clients
    && Seen(s, c) <= Seen(t, c)
    && Received(t, c) == Received(s, c) + Seen(t, c)[|Seen(s, c)|..]
  }

  lemma FollowsTransitive(s: State, m: State, t: State, c: ClientId)
    requires Follows(s, m, c) && Follows(m, t, c)
    ensures Follows(s, t, c)
  {
    assert Seen(t, c)[|Seen(s, c)|..] == Seen(m, c)[|Seen(s, c)|..] + Seen(t, c)[|Seen(m, c)|..];
  }

  lemma {:induction false} IndexOfPrefix(a: seq<ClientId>, b: seq<ClientId>, c: ClientId)
    requires c in a
    ensures c in a + b && IndexOf(a + b, c) == IndexOf(a, c)
  {
    assert (a + b)[0] == a[0];
    assert c in a + b by { assert (a + b)[IndexOf(a, c)] == c; }
    if a[0] != c {
      assert (a + b)[1..] == a[1..] + b;
      IndexOfPrefix(a[1..], b, c);
    }
  }

  lemma FollowsBy(s: State, t: State, c: ClientId, more: seq<BufferId>)
    requires c in s.clients && c in t.clients
    requires Seen(t, c) == Seen(s, c) + more && Received(t, c) == Received(s, c) + more
    ensures Follows(s, t, c)
  {
    hide Seen, Received;
  }

  lemma SeenDeliver(s: State, c: ClientId)
    requires NoDup(s.clients) && c in s.clients && Enabled(s, Deliver)
    ensures Next(s, Deliver).clients == s.clients
    ensures Seen(Next(s, Deliver), c)
      == if s.clients[s.pc.client] == c then Seen(s, c) + [s.outgoing[s.pc.buffer]] else Seen(s, c)
  {
    ReachedDeliver(s, c);
    hide Reached, Next;
    var i := s.pc.buffer;
    if s.clients[s.pc.client] == c {
      assert s.outgoing[..i+1] == s.outgoing[..i] + [s.outgoing[i]];
    }
  }

  lemma DeliverySees(s: State, c: ClientId)
    requires Inv(s) && c in s.clients && Enabled(s, Deliver)
    ensures Follows(s, Next(s, Deliver), c)
  {
    SeenDeliver(s, c);
    ReceivedDeliver(s, c);
    hide Inv, Received, Next, Seen, Follows;
    FollowsBy(s, Next(s, Deliver), c, if s.clients[s.pc.client] == c then [s.outgoing[s.pc.buffer]] else []);
  }

  lemma ReceivedDeliver(s: State, c: ClientId)
    requires Enabled(s, Deliver)
    ensures Received(Next(s, Deliver), c)
      == if s.clients[s.pc.client] == c then Received(s, c) + [s.outgoing[s.pc.buffer]] else Received(s, c)
  {}

  lemma ReachedDeliver(s: State, c: ClientId)
    requires NoDup(s.clients) && c in s.clients && Enabled(s, Deliver)
    ensures var t := Next(s, Deliver);
      && t.clients == s.clients && t.outgoing == s.outgoing && t.processed == s.processed
      && if s.clients[s.pc.client] == c then Reached(s, c) == s.pc.buffer && Reached(t, c) == s.pc.buffer + 1
         else Reached(t, c) == Reached(s, c)
  {
    var n, j := IndexOf(s.clients, c), s.pc.client;
    assert s.clients[j] == c <==> n == j;
  }

  /** A client's progress depends on the consumer's position only while a pass is open. */
  lemma ReachedQuiet(s: State, l: Label, c: ClientId)
    requires WakeInv(s) && c in s.clients && Enabled(s, l) && l != Unregister(c)
    requires !l.Deliver? && !l.ClearOutgoing?
    ensures c in Next(s, l).clients && Reached(Next(s, l), c) == Reached(s, c)
  {
    var t := Next(s, l);
    match l
    case Register(d) => IndexOfPrefix(s.clients, [d], c);
    case Unregister(d) => WithoutIsRemoval(s.clients, d);
    case _ => assert t.clients == s.clients;
  }

  lemma ReceivedQuiet(s: State, l: Label, c: ClientId)
    requires Enabled(s, l) && !l.Deliver? && !l.ClearOutgoing?
    ensures Next(s, l).processed == s.processed && Received(Next(s, l), c) == Received(s, c)
  {}

  lemma QuietStep(s: State, l: Label, c: ClientId)
    requires WakeInv(s) && c in s.clients && Enabled(s, l) && l != Unregister(c) && !l.Deliver?
    ensures Follows(s, Next(s, l), c)
  {
    var t := Next(s, l);
    if l.ClearOutgoing? {
      assert Seen(t, c) == Seen(s, c);
    } else {
      ReachedQuiet(s, l, c);
      ReceivedQuiet(s, l, c);
      if l.QueueSection? || l.SwapWoken? { assert s.outgoing == []; } else { assert t.outgoing == s.outgoing; }
      assert Seen(t, c) == Seen(s, c);
    }
    FollowsBy(s, t, c, []);
  }

  /** Exactly-once delivery: over any stretch of a run in which a client stays registered it is
      handed exactly the buffers that were processed meanwhile, in order, each once. */
  lemma {:induction false} RegisteredClientSeesAll(s: State, run: seq<Label>, c: ClientId)
    requires Inv(s) && Legal(s, run) && c in s.clients && Unregister(c) !in run
    ensures Follows(s, Exec(s, run), c)
    decreases run
  {
    if run != [] {
      var m := Next(s, run[0]);
      if run[0].Deliver? { DeliverySees(s, c); } else { QuietStep(s, run[0], c); }
      Step(s, run[0]);
      RegisteredClientSeesAll(m, run[1..], c);
      FollowsTransitive(s, m, Exec(m, run[1..]), c);
    }
  }

  // ----- reference counts -----

  /** Who is still owed buffer b: the clients holding it and those the open pass has yet to reach. */
  ghost function Owed(s: State, b: BufferId): set<ClientId> {
    Holders(s, b) + Pending(s, b)
  }

  ghost predicate YetToGet(s: State, b: BufferId, m: nat) {
    && s.pc.Pass?
    && exists k :: 0 <= k < |s.outgoing| && s.outgoing[k] == b && (k > s.pc.buffer || (k == s.pc.buffer && m >= s.pc.client))
  }

  ghost function Pending(s: State, b: BufferId): set<ClientId> {
    set m | 0 <= m < |s.clients| && YetToGet(s, b, m) :: s.clients[m]
  }

  ghost function Elements(q: seq<ClientId>): set<ClientId> { set x | x in q }

  lemma {:induction false} DistinctCount(q: seq<ClientId>)
    requires NoDup(q)
    ensures |Elements(q)| == |q|
  {
    if q != [] {
      DistinctCount(q[1..]);
      assert Elements(q) == {q[0]} + Elements(q[1..]);
      assert q[0] !in Elements(q[1..]);
    }
  }

  lemma PendingIsSuffix(s: State, k: nat)
    requires OrderInv(s) && ClientInv(s) && FreshInv(s) && k < |s.outgoing| && s.pc.Pass?
    ensures |Pending(s, s.outgoing[k])| == Undelivered(s, k)
    ensures Pending(s, s.outgoing[k]) !! Holders(s, s.outgoing[k])
  {
    Distinct(s);
    var b := s.outgoing[k];
    assert Undelivered(s, k) <= |s.clients|;
    var from := |s.clients| - Undelivered(s, k);
    var rest := s.clients[from..];
    forall m | 0 <= m < |s.clients| ensures YetToGet(s, b, m) <==> m >= from {
      if m >= from { assert s.outgoing[k] == b; }
    }
    assert Pending(s, b) == Elements(rest);
    DistinctCount(rest);
  }

  /** The count is exact. Once a buffer's pass has begun it is allocated exactly while somebody is
      owed it, and its count is the number of clients owed. Only a pass without clients differs. */
  lemma RefcountIsOwed(limit: nat, run: seq<Label>, b: BufferId)
    requires Legal(Init(limit), run)
    ensures var t := Exec(Init(limit), run);
      (b in t.processed || (b in t.outgoing && InPass(t))) && b !in t.leaked ==>
        && (b in t.refcount <==> Owed(t, b) != {})
        && (b in t.refcount ==> t.refcount[b] == |Owed(t, b)|)
  {
    Reachable(limit, run);
    var t := Exec(Init(limit), run);
    if b in t.processed || (b in t.outgoing && InPass(t)) { CountExact(t, b); }
  }

  lemma CountExact(s: State, b: BufferId)
    requires Inv(s) && (b in s.processed || (b in s.outgoing && InPass(s)))
    ensures b !in s.leaked ==> (b in s.refcount <==> Owed(s, b) != {})
    ensures b in s.refcount ==> s.refcount[b] == |Owed(s, b)|
  {
    Distinct(s);
    if b in s.processed {
      assert Pending(s, b) == {};
      assert Handed(s, b, 0);
      assert Owed(s, b) == Holders(s, b);
    } else {
      var k :| 0 <= k < |s.outgoing| && s.outgoing[k] == b;
      assert Handed(s, s.outgoing[k], Undelivered(s, k));
      if s.pc.Pass? { PendingIsSuffix(s, k); } else { assert Pending(s, b) == {}; }
      assert |Owed(s, b)| == |Holders(s, b)| + Undelivered(s, k);
    }
  }

  /** A release frees the buffer exactly when the releasing client is the last one owed it. */
  lemma FreedAtLastRelease(limit: nat, run: seq<Label>, c: ClientId, b: BufferId)
    requires Legal(Init(limit), run) && Enabled(Exec(Init(limit), run), Release(c, b))
    ensures var s := Exec(Init(limit), run);
      && b in s.refcount
      && (b in Next(s, Release(c, b)).freed <==> Owed(s, b) == {c})
  {
    Reachable(limit, run);
    var s := Exec(Init(limit), run);
    HeldIsCounted(s, c, b);
    assert forall k :: 0 <= k < |s.outgoing| ==> InPass(s) || Waiting(s, s.outgoing[k]);
    assert b in s.processed || (b in s.outgoing && InPass(s));
    CountExact(s, b);
    if |Owed(s, b)| == 1 { Singleton(Owed(s, b), c); }
  }

  lemma Singleton(q: set<ClientId>, c: ClientId)
    requires |q| == 1 && c in q
    ensures q == {c}
  {
    assert |q - {c}| == 0;
  }

  lemma {:induction false} Occurrences(q: seq<BufferId>, b: BufferId)
    requires NoDup(q)
    ensures multiset(q)[b] == if b in q then 1 else 0
  {
    if q != [] {
      Occurrences(q[1..], b);
      assert q == [q[0]] + q[1..];
      assert q[0] !in q[1..];
    }
  }

  /** Every buffer ever added is either still allocated or was freed exactly once. */
  lemma FreedExactlyOnce(limit: nat, run: seq<Label>, b: BufferId)
    requires Legal(Init(limit), run) && b < |Added(run)|
    ensures var t := Exec(Init(limit), run);
      multiset(t.freed)[b] == if b in t.refcount then 0 else 1
  {
    Reachable(limit, run);
    AddsAreSizes(Init(limit), run);
    Occurrences(Exec(Init(limit), run).freed, b);
  }

  ghost predicate Idle(s: State) {
    s.incoming == [] && s.outgoing == [] && forall b :: Holders(s, b) == {}
  }

  /** Some delivery pass found no client registered. */
  ghost predicate EmptyPass(s: State, run: seq<Label>)
    requires Legal(s, run)
    decreases run
  {
    run != [] && ((run[0].BeginPass? && s.clients == []) || EmptyPass(Next(s, run[0]), run[1..]))
  }

  lemma LeakStep(s: State, l: Label)
    requires LocationInv(s) && Enabled(s, l)
    ensures s.leaked <= Next(s, l).leaked
    ensures Next(s, l).leaked != s.leaked <==> l.BeginPass? && s.clients == []
  {
    if l.BeginPass? && s.clients == [] {
      assert Waiting(s, s.outgoing[0]);
      assert s.outgoing[0] in Next(s, l).leaked;
    }
  }

  lemma {:induction false} LeakRun(s: State, run: seq<Label>)
    requires Inv(s) && Legal(s, run)
    ensures s.leaked <= Exec(s, run).leaked
    ensures EmptyPass(s, run) <==> Exec(s, run).leaked != s.leaked
    decreases run
  {
    if run != [] {
      Step(s, run[0]);
      LeakStep(s, run[0]);
      LeakRun(Next(s, run[0]), run[1..]);
    }
  }

  /** Once the queues are drained and every client has released what it held, all memory has been
      returned if and only if no delivery pass ever ran without a client. */
  lemma LeakFreeExact(limit: nat, run: seq<Label>)
    requires Legal(Init(limit), run) && Idle(Exec(Init(limit), run))
    ensures var t := Exec(Init(limit), run);
      && t.refcount.Keys == t.leaked
      && (t.refcount == map[] <==> !EmptyPass(Init(limit), run))
  {
    Reachable(limit, run);
    InitInv(limit);
    LeakRun(Init(limit), run);
    var t := Exec(Init(limit), run);
    forall b ensures b in t.refcount <==> b in t.leaked {
      if b in t.refcount || b in t.leaked {
        assert b in t.processed;
        assert Handed(t, b, 0);
      }
    }
    assert t.refcount == map[] <==> t.refcount.Keys == {};
  }

  /** A run that leaks: a client comes, one buffer arrives, the client goes, the consumer runs its pass. */
  function LeakyRun(c: ClientId): seq<Label> {
    [Register(c)] + [Add(1)] + [Unregister(c)] + [QueueSection] + [BeginPass] + [Unlock] + [ClearOutgoing]
  }

  /** Its states: the client and the buffer waiting, the buffer in the pass, and the end. */
  function LeakBefore(limit: nat, c: ClientId): State {
    Init(limit).(clients := [c], started := true, incoming := [0], refcount := map[0 := 1], sizes := [1])
  }

  function LeakDuring(limit: nat): State {
    Init(limit).(sizes := [1], outgoing := [0], batches := [Taken([0])], refcount := map[0 := 0], leaked := {0}, pc := Pass(0, 0))
  }

  function LeakAfter(limit: nat): State {
    LeakDuring(limit).(processed := [0], outgoing := [], pc := Check)
  }

  lemma LeakBegins(limit: nat, c: ClientId)
    ensures Enabled(Init(limit), Register(c)) && Enabled(Next(Init(limit), Register(c)), Add(1))
    ensures Next(Next(Init(limit), Register(c)), Add(1)) == LeakBefore(limit, c)
  {
    assert [] + [c] == [c] && [] + [1] == [1];
  }

  lemma LeakPasses(limit: nat, c: ClientId)
    ensures var s := LeakBefore(limit, c);
      && Enabled(s, Unregister(c)) && Enabled(Next(s, Unregister(c)), QueueSection)
      && Enabled(Next(Next(s, Unregister(c)), QueueSection), BeginPass)
      && Next(Next(Next(s, Unregister(c)), QueueSection), BeginPass) == LeakDuring(limit)
  {
    assert Without([c], c) == [] && Minus(map[0 := 1], []) == map[0 := 1];
    assert SetAll(map[0 := 1], [0], 0) == map[0 := 0] && (set b | b in [0]) == {0};
  }

  lemma LeakEnds(limit: nat)
    ensures var s := LeakDuring(limit);
      && Enabled(s, Unlock) && Enabled(Next(s, Unlock), ClearOutgoing)
      && Next(Next(s, Unlock), ClearOutgoing) == LeakAfter(limit)
  {}

  lemma NoSteps(s: State)
    ensures Legal(s, []) && Exec(s, []) == s
  {}

  /** So the leak happens: everything is idle and nobody is registered, and buffer 0 is still allocated. */
  lemma ClientlessPassLeaks(limit: nat, c: ClientId)
    ensures Legal(Init(limit), LeakyRun(c))
    ensures var t := Exec(Init(limit), LeakyRun(c));
      Idle(t) && t.processed == [0] && t.clients == [] && t.refcount == map[0 := 0] && t.freed == []
  {
    LeakBegins(limit, c);
    LeakPasses(limit, c);
    LeakEnds(limit);
    assert Idle(LeakAfter(limit)) && LeakAfter(limit).clients == [];
    hide Next, Enabled, Legal, Exec, Idle;
    var s, r: seq<Label> := Init(limit), [Register(c)];
    assert [] + r == r;
    NoSteps(s);
    ExecAppend(s, [], Register(c));
    ExecAppend(s, r, Add(1));
    ExecAppend(s, r + [Add(1)], Unregister(c));
    ExecAppend(s, r + [Add(1)] + [Unregister(c)], QueueSection);
    ExecAppend(s, r + [Add(1)] + [Unregister(c)] + [QueueSection], BeginPass);
    ExecAppend(s, r + [Add(1)] + [Unregister(c)] + [QueueSection] + [BeginPass], Unlock);
    ExecAppend(s, r + [Add(1)] + [Unregister(c)] + [QueueSection] + [BeginPass] + [Unlock], ClearOutgoing);
  }

  // ----- the incoming queue stays short -----

  ghost predicate LimitsAtMost(run: seq<Label>, n: nat) {
    forall k :: 0 <= k < |run| && run[k].SetLimit? ==> run[k].limit <= n
  }

  lemma {:induction false} HighestLimitRun(s: State, run: seq<Label>, n: nat)
    requires Legal(s, run) && LimitsAtMost(run, n) && s.highestLimit <= n
    ensures Exec(s, run).highestLimit <= n
    decreases run
  {
    if run != [] {
      HighestLimitRun(Next(s, run[0]), run[1..], n);
    }
  }

  function Bytes(sizes: seq<nat>, ids: seq<BufferId>): nat
    requires forall k :: 0 <= k < |ids| ==> ids[k] < |sizes|
  {
    if ids == [] then 0 else sizes[ids[0]] + Bytes(sizes, ids[1..])
  }

  lemma {:induction false} BytesBound(sizes: seq<nat>, ids: seq<BufferId>, most: nat)
    requires forall k :: 0 <= k < |ids| ==> ids[k] < |sizes|
    requires forall k :: 0 <= k < |sizes| ==> sizes[k] <= most
    ensures Bytes(sizes, ids) <= |ids| * most
  {
    if ids != [] {
      BytesBound(sizes, ids[1..], most);
      assert |ids| * most == (|ids| - 1) * most + most;
    }
  }

  /** Whatever limits a run sets, the incoming queue never exceeds the largest by more than one. */
  lemma IncomingBound(limit: nat, run: seq<Label>, n: nat)
    requires Legal(Init(limit), run) && limit <= n && LimitsAtMost(run, n)
    ensures |Exec(Init(limit), run).incoming| <= n + 1
  {
    Reachable(limit, run);
    HighestLimitRun(Init(limit), run, n);
  }

  /** With limits derived from the properties and buffers no larger than the threshold, no more than
      30 seconds of audio plus one threshold ever wait in the incoming queue. */
  lemma IncomingBytesBound(p: Properties, run: seq<Label>)
    requires p.threshold > 0
    requires Legal(Init(MaxQueueSize(p)), run) && LimitsAtMost(run, MaxQueueSize(p))
    requires forall k :: 0 <= k < |Added(run)| ==> Added(run)[k] <= p.threshold
    ensures var t := Exec(Init(MaxQueueSize(p)), run);
      && (forall k :: 0 <= k < |t.incoming| ==> t.incoming[k] < |t.sizes|)
      && Bytes(t.sizes, t.incoming) <= 30 * DataRate(p) + p.threshold
  {
    var n := MaxQueueSize(p);
    Reachable(n, run);
    IncomingBound(n, run, n);
    AddsAreSizes(Init(n), run);
    var t := Exec(Init(n), run);
    Distinct(t);
    BytesBound(t.sizes, t.incoming, p.threshold);
    QueueSizeBytes(p, |t.incoming|);
  }

  lemma QueueSizeBytes(p: Properties, count: nat)
    requires p.threshold > 0 && count <= MaxQueueSize(p) + 1
    ensures count * p.threshold <= MAX_QMGR_BUFFER_DURATION_S * DataRate(p) + p.threshold
  {
    QueueSizeIsExact(p);
    WholeThresholds(MAX_QMGR_BUFFER_DURATION_S * DataRate(p), p.threshold, count);
  }

  lemma WholeThresholds(total: nat, threshold: nat, count: nat)
    requires 0 < threshold && count <= total / threshold + 1
    ensures count * threshold <= total + threshold
  {
    var n := total / threshold;
    assert n * threshold <= total;
    MulMono(count, n + 1, threshold);
    assert (n + 1) * threshold == n * threshold + threshold;
  }
}
