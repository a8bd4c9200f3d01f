/** The music-id client as a sequential machine: what each operation under the client mutex does to
    the sliding history and to the pending requests. A run is any sequence of operations. */
module MusicIdSpec {
  import opened AudioProperties
  import opened Striding
  import opened ConverterSpec

  const DEFAULT_PRECAPTURE_SECONDS := 6

  datatype Request = Request(id: nat, length: nat, remaining: nat)

  /** History only: when a request was made and what had been received by then. */
  datatype Issue = Issue(tick: nat, length: nat, start: nat)

  /** History only: a served request, the tick that served it, the queue it was served from and how
      many buffers had been received by then. */
  datatype Completion = Completion(id: nat, length: nat, tick: nat, ret: int, source: seq<seq<byte>>, heard: nat)

  datatype State = State(
    queue: seq<seq<byte>>,
    totalSize: nat,
    precapture: nat,
    limit: nat,
    requests: seq<Request>,
    counter: nat,
    input: Properties,
    received: seq<seq<byte>>,
    released: seq<seq<byte>>,
    ticks: nat,
    issued: seq<Issue>,
    done: seq<Completion>)

  datatype Op =
    | Callback(data: seq<byte>)
    | SetPrecapture(seconds: nat)
    | Fresh(seconds: nat)
    | Tick
    | SetProperties(p: Properties)

  /** The session manager passes durations on only up to the supported maximum. */
  predicate Allowed(op: Op) {
    match op
    case SetPrecapture(s) => s <= MAX_CLIP_SECONDS
    case Fresh(s) => s <= MAX_CLIP_SECONDS
    case _ => true
  }

  // ----- the limit -----

  function Lengths(requests: seq<Request>): seq<nat> {
    seq(|requests|, i requires 0 <= i < |requests| => requests[i].length)
  }

  function Longest(least: nat, lengths: seq<nat>): (m: nat)
    ensures least <= m && forall i :: 0 <= i < |lengths| ==> lengths[i] <= m
    ensures m == least || m in lengths
  {
    if lengths == [] then least
    else
      var m, n := Longest(least, lengths[..|lengths|-1]), lengths[|lengths|-1];
      if m < n then n else m
  }

  /** Seconds of the longest pending request, or of the precapture, in bytes (32-bit unsigned). */
  function LimitFor(precapture: nat, requests: seq<Request>, input: Properties): nat {
    Longest(precapture, Lengths(requests)) * DataRate(input) % U32
  }

  // ----- trimming -----

  function Bytes(queue: seq<seq<byte>>): nat { Total(Sizes(queue)) }

  /** The signed excess: an unsigned difference read as a signed one. */
  function Excess(totalSize: nat, limit: nat): int {
    var d := (totalSize - limit) % U32;
    if d >= I32_LIMIT then d - U32 else d
  }

  /** How many buffers the trim loop pops; it would look at the front of an empty queue if it ran out. */
  function DropCount(queue: seq<seq<byte>>, excess: int): (k: nat)
    ensures k <= |queue|
  {
    if excess <= 0 || queue == [] || excess < |queue[0]| then 0 else 1 + DropCount(queue[1..], excess - |queue[0]|)
  }

  predicate FrontOfEmpty(queue: seq<seq<byte>>, excess: int)
    decreases |queue|
  {
    excess > 0 && (queue == [] || (excess >= |queue[0]| && FrontOfEmpty(queue[1..], excess - |queue[0]|)))
  }

  function TrimStep(s: State): State {
    var k := DropCount(s.queue, Excess(s.totalSize, s.limit));
    s.(queue := s.queue[k..],
       totalSize := (s.totalSize - Bytes(s.queue[..k])) % U32,
       released := s.released + s.queue[..k])
  }

  // ----- one tick of the request list -----

  function Due(requests: seq<Request>): seq<Request> {
    if requests == [] then []
    else
      var r := requests[|requests|-1];
      Due(requests[..|requests|-1]) + (if r.remaining == 0 then [r] else [])
  }

  function Rest(requests: seq<Request>): seq<Request> {
    if requests == [] then []
    else
      var r := requests[|requests|-1];
      Rest(requests[..|requests|-1]) + (if r.remaining == 0 then [] else [r.(remaining := r.remaining - 1)])
  }

  function Complete(due: seq<Request>, tick: nat, queue: seq<seq<byte>>, heard: nat): seq<Completion> {
    if due == [] then []
    else
      var r := due[|due|-1];
      Complete(due[..|due|-1], tick, queue, heard)
      + [Completion(r.id, r.length, tick, if queue == [] then -1 else 0, queue, heard)]
  }

  function TickStep(s: State): State {
    var due, rest := Due(s.requests), Rest(s.requests);
    TrimStep(s.(requests := rest,
                limit := if due == [] then s.limit else LimitFor(s.precapture, rest, s.input),
                done := s.done + Complete(due, s.ticks + 1, s.queue, |s.received|),
                ticks := s.ticks + 1))
  }

  function Apply(s: State, op: Op): State {
    match op
    case Callback(data) =>
      s.(queue := s.queue + [data], totalSize := (s.totalSize + |data|) % U32, received := s.received + [data])
    case SetPrecapture(n) => TrimStep(s.(precapture := n, limit := LimitFor(n, s.requests, s.input)))
    case Fresh(n) =>
      var requests := s.requests + [Request(s.counter, n, n)];
      s.(requests := requests, counter := s.counter + 1, limit := LimitFor(s.precapture, requests, s.input),
         issued := s.issued + [Issue(s.ticks, n, |s.received|)])
    case Tick => TickStep(s)
    case SetProperties(p) => s.(input := p)
  }

  function Start(input: Properties): State {
    State([], 0, DEFAULT_PRECAPTURE_SECONDS, LimitFor(DEFAULT_PRECAPTURE_SECONDS, [], input), [], 0, input, [], [], 0, [], [])
  }

  function After(s: State, ops: seq<Op>): State
    decreases ops
  {
    if ops == [] then s else After(Apply(s, ops[0]), ops[1..])
  }

  lemma {:induction false} AfterSnoc(s: State, ops: seq<Op>, op: Op)
    ensures After(s, ops + [op]) == Apply(After(s, ops), op)
    decreases ops
  {
    if ops == [] {
      assert [op][1..] == [];
    } else {
      AfterSnoc(Apply(s, ops[0]), ops[1..], op);
      assert (ops + [op])[1..] == ops[1..] + [op];
    }
  }
}
