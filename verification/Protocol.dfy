/**
 * The master's Run and GenerateTestCases calls composed with the workers' run handlers over FIFO queues
 * (cmd/master/master.go, cmd/worker/worker.go), as an interleaving of their steps.
 */
module Protocol {
  import opened Floats
  import opened GoInt
  import opened Models
  import opened Replies
  import opened Sandbox

  /** GenerateTestCases' eg.SetLimit(10). */
  const GENERATE_LIMIT := 10

  datatype Response = Response(executionId: string, status: Status, output: string, wallTime: Float32, memory: int32)

  /** What Run sends on for a reply that carries r; the master has decoded it first. */
  function Forwarded(r: RunResult<Float32>): Response {
    Response(Received(r).id, r.status, Received(r).output, r.wallTime, r.memory)
  }

  function QueuedResponse(id: string): Response {
    Response(id, QUEUED, "", NO_TIME, 0)
  }

  /** The call: not submitted; submitted; consuming its reply queue; answered; ended by a body it cannot decode. */
  datatype Phase = Idle | Submitted | Consuming | Done | Broken

  /** Where the request is: `sent` counts the replies that its handler has published so far. */
  datatype Place = Nowhere | InQueue | At(slot: nat, sent: nat) | Handled

  /** One call. Its reply queue holds published[received..]. */
  datatype Client = Client(phase: Phase, place: Place, published: seq<Message>, received: nat, stream: seq<Response>)

  /** What GenerateTestCases appends to runResults: the case, standing for its id, order and input, and the output. */
  datatype CaseOutput = CaseOutput(client: nat, output: string)

  /**
   * `work` is the "run" queue; a slot is one of the workers' concurrent handlers. `collected` has the entries of all
   * GenerateTestCases calls in the order in which they were appended.
   */
  datatype System = System(clients: seq<Client>, work: seq<nat>, slots: seq<Option<nat>>, collected: seq<CaseOutput>)

  /** Any number of Run and GenerateTestCases calls, and the workers' handlers. */
  datatype Setup = Setup(env: Env, requests: seq<Request>, slots: nat)

  datatype Step = Submit(client: nat) | Accept(client: nat) | Receive(client: nat) | Take(slot: nat) | Handle(slot: nat)

  // ---- one call's part of each step ---------------------------------------------------------------

  function Submitting(q: Request, c: Client): Client {
    c.(phase := if q.kind.Streamed? then Submitted else Consuming, place := InQueue)
  }

  function Accepting(q: Request, c: Client): Client {
    c.(phase := Consuming, stream := c.stream + [QueuedResponse(q.id)])
  }

  function Receiving(q: Request, c: Client): Client
    requires c.received < |c.published|
  {
    var m := c.published[c.received];
    var next := c.(received := c.received + 1);
    if m.Empty? then next.(phase := Broken)
    else next.(phase := if IsTerminal(m) then Done else Consuming,
               stream := if q.kind.Streamed? then c.stream + [Forwarded(m.result)] else c.stream)
  }

  /** The handler's next publish, or its return. */
  function Handling(replies: seq<Message>, c: Client): Client
    requires c.place.At?
  {
    if c.place.sent < |replies| then
      c.(place := At(c.place.slot, c.place.sent + 1), published := c.published + [replies[c.place.sent]])
    else c.(place := Handled)
  }

  // ---- the whole system ---------------------------------------------------------------------------

  predicate OfCall(q: Request, call: nat) { q.kind.Collected? && q.kind.call == call }

  /** The executions of one GenerateTestCases call that are under way. */
  function Live(z: Setup, s: System, call: nat): set<nat>
    requires |s.clients| == |z.requests|
  {
    set c: nat | c < |s.clients| && OfCall(z.requests[c], call) && s.clients[c].phase.Consuming?
  }

  /** The goroutines of a GenerateTestCases call start in order and at most ten are alive; Run calls start at any time. */
  predicate MayLaunch(z: Setup, s: System, c: nat)
    requires |s.clients| == |z.requests| && c < |s.clients|
  {
    var q := z.requests[c];
    q.kind.Collected? ==>
      && |Live(z, s, q.kind.call)| < GENERATE_LIMIT
      && forall d: nat :: d < |s.clients| && OfCall(z.requests[d], q.kind.call)
                          && z.requests[d].kind.index < q.kind.index ==>
           !s.clients[d].phase.Idle?
  }

  predicate Sized(z: Setup, s: System) {
    |s.clients| == |z.requests| && |s.slots| == z.slots
  }

  predicate Enabled(z: Setup, s: System, t: Step) {
    && Sized(z, s)
    && match t
       case Submit(c) => c < |s.clients| && s.clients[c].phase.Idle? && MayLaunch(z, s, c)
       case Accept(c) => c < |s.clients| && s.clients[c].phase.Submitted?
       case Receive(c) =>
         c < |s.clients| && s.clients[c].phase.Consuming? && s.clients[c].received < |s.clients[c].published|
       case Take(w) => w < z.slots && s.slots[w].None? && s.work != [] && s.work[0] < |s.clients|
       case Handle(w) => w < z.slots && s.slots[w].Some? && s.slots[w].value < |s.clients|
                         && s.clients[s.slots[w].value].place.At?
  }

  /** The call a step moves. */
  function Mover(z: Setup, s: System, t: Step): nat
    requires Enabled(z, s, t)
  {
    match t
    case Submit(c) => c
    case Accept(c) => c
    case Receive(c) => c
    case Take(_) => s.work[0]
    case Handle(w) => s.slots[w].value
  }

  function Moved(z: Setup, s: System, t: Step): Client
    requires Enabled(z, s, t)
  {
    var c := s.clients[Mover(z, s, t)];
    var q := z.requests[Mover(z, s, t)];
    match t
    case Submit(_) => Submitting(q, c)
    case Accept(_) => Accepting(q, c)
    case Receive(_) => Receiving(q, c)
    case Take(w) => c.(place := At(w, 0))
    case Handle(_) => Handling(RepliesTo(z.env, q), c)
  }

  function Apply(z: Setup, s: System, t: Step): System
    requires Enabled(z, s, t)
  {
    var c := Mover(z, s, t);
    var after := Moved(z, s, t);
    var s' := s.(clients := s.clients[c := after]);
    match t
    case Submit(_) => s'.(work := s.work + [c])
    case Accept(_) => s'
    case Receive(_) =>
      if z.requests[c].kind.Collected? && after.phase.Done? then
        s'.(collected := s.collected + [CaseOutput(c, Received(after.published[after.received - 1].result).output)])
      else s'
    case Take(w) => s'.(work := s.work[1..], slots := s.slots[w := Some(c)])
    case Handle(w) => if after.place.Handled? then s'.(slots := s.slots[w := None]) else s'
  }

  function Start(z: Setup): System {
    System(seq(|z.requests|, _ => Client(Idle, Nowhere, [], 0, [])), [], seq(z.slots, _ => None), [])
  }

  ghost predicate Next(z: Setup, s: System, s': System) {
    exists t :: Enabled(z, s, t) && s' == Apply(z, s, t)
  }

  ghost predicate Run(z: Setup, run: seq<System>) {
    run != [] && run[0] == Start(z) && forall i :: 0 <= i < |run| - 1 ==> Next(z, run[i], run[i + 1])
  }

  ghost predicate Reachable(z: Setup, s: System) {
    exists run :: Run(z, run) && run[|run| - 1] == s
  }

  /** No step can be taken. */
  ghost predicate Quiet(z: Setup, s: System) {
    forall t :: !Enabled(z, s, t)
  }
}
