/** What every client of the run protocol sees, in every interleaving. */
module ProtocolProofs {
  import opened Floats
  import opened Models
  import opened Sandbox
  import opened Replies
  import opened Protocol
  import opened Sequences

  // ---- one call -----------------------------------------------------------------------------------

  function Sent(replies: seq<Message>, p: Place): nat {
    match p
    case At(_, sent) => sent
    case Handled => |replies|
    case _ => 0
  }

  function ForwardedAll(ms: seq<Message>): seq<Response>
    requires forall m :: m in ms ==> m.Encoded?
  {
    seq(|ms|, i requires 0 <= i < |ms| => Forwarded(ms[i].result))
  }

  predicate AllProgress(ms: seq<Message>) {
    forall m :: m in ms ==> m.Encoded? && !IsTerminal(m)
  }

  /** The stream of a call that has received these messages. */
  predicate StreamOf(q: Request, c: Client)
    requires c.received <= |c.published|
  {
    if q.kind.Collected? || c.phase.Idle? || c.phase.Submitted? then c.stream == []
    else
      var seen := c.published[..if c.phase.Broken? && c.received > 0 then c.received - 1 else c.received];
      (forall m :: m in seen ==> m.Encoded?) && c.stream == [QueuedResponse(q.id)] + ForwardedAll(seen)
  }

  /** What is true of one call at any time; `replies` is what its handler publishes. */
  ghost predicate ClientInv(replies: seq<Message>, q: Request, c: Client) {
    && Sent(replies, c.place) <= |replies|
    && c.published == replies[..Sent(replies, c.place)]
    && c.received <= |c.published|
    && (c.phase.Idle? <==> c.place.Nowhere?)
    && (c.phase.Submitted? ==> q.kind.Streamed?)
    && (c.phase.Submitted? ==> c.received == 0)
    && StreamOf(q, c)
    && (c.phase.Consuming? ==> AllProgress(c.published[..c.received]))
    && (c.phase.Done? || c.phase.Broken? ==>
          && c.received > 0
          && AllProgress(c.published[..c.received - 1])
          && var last := c.published[c.received - 1]; if c.phase.Done? then IsTerminal(last) else last.Empty?)
  }

  lemma SubmittingKeeps(replies: seq<Message>, q: Request, c: Client)
    requires ClientInv(replies, q, c) && c.phase.Idle?
    ensures ClientInv(replies, q, Submitting(q, c))
  {
  }

  lemma AcceptingKeeps(replies: seq<Message>, q: Request, c: Client)
    requires ClientInv(replies, q, c) && c.phase.Submitted?
    ensures ClientInv(replies, q, Accepting(q, c))
  {
    assert ForwardedAll([]) == [];
  }

  lemma ReceivingKeeps(replies: seq<Message>, q: Request, c: Client)
    requires ClientInv(replies, q, c) && c.phase.Consuming? && c.received < |c.published|
    ensures ClientInv(replies, q, Receiving(q, c))
  {
    hide Forwarded;
    var m := c.published[c.received];
    assert c.published[..c.received + 1] == c.published[..c.received] + [m];
    if m.Encoded? {
      assert ForwardedAll(c.published[..c.received + 1]) == ForwardedAll(c.published[..c.received]) + [Forwarded(m.result)];
    }
  }

  lemma TakingKeeps(replies: seq<Message>, q: Request, c: Client, w: nat)
    requires ClientInv(replies, q, c) && c.place.InQueue?
    ensures ClientInv(replies, q, c.(place := Place.At(w, 0)))
  {
  }

  lemma HandlingKeeps(replies: seq<Message>, q: Request, c: Client)
    requires ClientInv(replies, q, c) && c.place.At?
    ensures ClientInv(replies, q, Handling(replies, c))
  {
    var c' := Handling(replies, c);
    if c.place.sent < |replies| {
      assert c'.published[..c.received] == c.published[..c.received];
      if c.received > 0 {
        assert c'.published[..c.received - 1] == c.published[..c.received - 1];
      }
    }
  }

  // ---- the queue and the slots --------------------------------------------------------------------

  ghost predicate QueueInv(s: System) {
    && NoDups(s.work)
    && (forall c :: c in s.work ==> c < |s.clients| && s.clients[c].place.InQueue?)
    && (forall c: nat :: c < |s.clients| && s.clients[c].place.InQueue? ==> c in s.work)
  }

  ghost predicate SlotsInv(s: System) {
    && (forall w: nat :: w < |s.slots| && s.slots[w].Some? ==>
          s.slots[w].value < |s.clients| && s.clients[s.slots[w].value].place.At?
          && s.clients[s.slots[w].value].place.slot == w)
    && (forall c: nat :: c < |s.clients| && s.clients[c].place.At? ==>
          s.clients[c].place.slot < |s.slots| && s.slots[s.clients[c].place.slot] == Some(c))
  }

  /** A request is in the queue once, or in one slot, exactly when its call says so. */
  ghost predicate PlacesInv(z: Setup, s: System) {
    Sized(z, s) && QueueInv(s) && SlotsInv(s)
  }

  ghost predicate ClientsInv(z: Setup, s: System) {
    && Sized(z, s)
    && forall c: nat :: c < |s.clients| ==> ClientInv(RepliesTo(z.env, z.requests[c]), z.requests[c], s.clients[c])
  }

  /** The entry that a collecting call contributes once it is done. */
  predicate EntryOf(z: Setup, s: System, e: CaseOutput)
    requires Sized(z, s)
  {
    && e.client < |s.clients| && z.requests[e.client].kind.Collected? && s.clients[e.client].phase.Done?
    && 0 < s.clients[e.client].received <= |s.clients[e.client].published|
    && var last := s.clients[e.client].published[s.clients[e.client].received - 1];
       last.Encoded? && e.output == Received(last.result).output
  }

  ghost predicate CollectedInv(z: Setup, s: System) {
    && Sized(z, s)
    && (forall i :: 0 <= i < |s.collected| ==> EntryOf(z, s, s.collected[i]))
    && (forall i, j :: 0 <= i < j < |s.collected| ==> s.collected[i].client != s.collected[j].client)
    && (forall c: nat :: c < |s.clients| && z.requests[c].kind.Collected? && s.clients[c].phase.Done? ==>
          exists i :: 0 <= i < |s.collected| && s.collected[i].client == c)
  }

  ghost predicate LimitInv(z: Setup, s: System) {
    Sized(z, s) && forall call: nat :: |Live(z, s, call)| <= GENERATE_LIMIT
  }

  ghost predicate Inv(z: Setup, s: System) {
    PlacesInv(z, s) && ClientsInv(z, s) && CollectedInv(z, s) && LimitInv(z, s)
  }

  /** Only m moves: it stays in or out of the queue, or joins it at the end, or leaves it from the front. */
  predicate QueueMove(s: System, s': System, m: nat)
    requires m < |s.clients| == |s'.clients|
  {
    var (a, b) := (s.clients[m].place, s'.clients[m].place);
    || (s'.work == s.work && (a.InQueue? <==> b.InQueue?))
    || (s'.work == s.work + [m] && !a.InQueue? && b.InQueue?)
    || (s.work != [] && s.work[0] == m && s'.work == s.work[1..] && !b.InQueue?)
  }

  lemma QueueMoveKeeps(s: System, s': System, m: nat)
    requires QueueInv(s) && m < |s.clients| == |s'.clients| && QueueMove(s, s', m)
    requires forall c: nat :: c < |s.clients| && c != m ==> s'.clients[c] == s.clients[c]
    ensures QueueInv(s')
  {
    if s'.work != s.work && !s'.clients[m].place.InQueue? {
      assert forall i :: 0 <= i < |s'.work| ==> s'.work[i] == s.work[i + 1] && s.work[0] != s.work[i + 1];
      assert forall c :: c in s.work ==> c == m || c in s'.work;
    }
  }

  lemma StepKeepsQueue(z: Setup, s: System, t: Step)
    requires Enabled(z, s, t) && QueueInv(s)
    requires t.Submit? ==> s.clients[t.client].place.Nowhere?
    ensures QueueInv(Apply(z, s, t))
  {
    hide RepliesTo, MayLaunch, QueueInv;
    QueueMoveKeeps(s, Apply(z, s, t), Mover(z, s, t));
  }

  /** Only m moves: it stays where it is or within its slot, or takes slot w, or leaves it. */
  predicate SlotMove(s: System, s': System, m: nat, w: nat)
    requires m < |s.clients| == |s'.clients| && w < |s.slots|
  {
    var (a, b) := (s.clients[m].place, s'.clients[m].place);
    || (s'.slots == s.slots && (a.At? <==> b.At?) && (a.At? ==> a.slot == b.slot))
    || (s.slots[w].None? && s'.slots == s.slots[w := Some(m)] && !a.At? && b == Place.At(w, 0))
    || (a.At? && a.slot == w && s'.slots == s.slots[w := None] && !b.At?)
  }

  lemma SlotMoveKeeps(s: System, s': System, m: nat, w: nat)
    requires SlotsInv(s) && m < |s.clients| == |s'.clients| && w < |s.slots| && SlotMove(s, s', m, w)
    requires forall c: nat :: c < |s.clients| && c != m ==> s'.clients[c] == s.clients[c]
    ensures SlotsInv(s')
  {
  }

  lemma StepKeepsSlots(z: Setup, s: System, t: Step)
    requires Enabled(z, s, t) && SlotsInv(s)
    requires t.Submit? ==> s.clients[t.client].place.Nowhere?
    requires t.Take? ==> s.clients[s.work[0]].place.InQueue?
    ensures SlotsInv(Apply(z, s, t))
  {
    hide RepliesTo, MayLaunch;
    var m := Mover(z, s, t);
    assert t.Handle? ==> s.clients[m].place.slot == t.slot;
    var w := match t case Handle(w) => w case Take(w) => w case _ => 0;
    hide SlotsInv;
    if t.Handle? || t.Take? {
      SlotMoveKeeps(s, Apply(z, s, t), m, w);
    } else if z.slots > 0 {
      SlotMoveKeeps(s, Apply(z, s, t), m, 0);
    } else {
      NoSlots(s, Apply(z, s, t), m);
    }
  }

  lemma NoSlots(s: System, s': System, m: nat)
    requires SlotsInv(s) && s'.slots == s.slots == [] && m < |s.clients| == |s'.clients|
    requires forall c: nat :: c < |s.clients| && c != m ==> s'.clients[c] == s.clients[c]
    requires s'.clients[m].place.At? <==> s.clients[m].place.At?
    ensures SlotsInv(s')
  {
  }

  lemma StepKeepsPlaces(z: Setup, s: System, t: Step)
    requires Enabled(z, s, t) && PlacesInv(z, s)
    requires forall c: nat :: c < |s.clients| ==> (s.clients[c].phase.Idle? <==> s.clients[c].place.Nowhere?)
    ensures PlacesInv(z, Apply(z, s, t))
  {
    hide Apply, SlotsInv;
    SizesStay(z, s, t);
    StepKeepsQueue(z, s, t);
    StepKeepsSlots(z, s, t);
  }

  lemma StepKeepsClients(z: Setup, s: System, t: Step)
    requires Enabled(z, s, t) && PlacesInv(z, s) && ClientsInv(z, s)
    ensures ClientsInv(z, Apply(z, s, t))
  {
    hide RepliesTo, ClientInv;
    var m := Mover(z, s, t);
    var q, c := z.requests[m], s.clients[m];
    var replies := RepliesTo(z.env, q);
    assert ClientInv(replies, q, c);
    match t
    case Submit(_) => SubmittingKeeps(replies, q, c);
    case Accept(_) => AcceptingKeeps(replies, q, c);
    case Receive(_) => ReceivingKeeps(replies, q, c);
    case Take(w) => TakingKeeps(replies, q, c, w);
    case Handle(_) => HandlingKeeps(replies, q, c);
  }

  /** A call that is done stays done, and keeps the message it is done with. */
  lemma DoneStaysDone(z: Setup, s: System, t: Step, c: nat)
    requires Enabled(z, s, t) && ClientsInv(z, s) && c < |s.clients| && s.clients[c].phase.Done?
    ensures var (a, b) := (s.clients[c], Apply(z, s, t).clients[c]);
            b.phase.Done? && b.received == a.received && a.published <= b.published
  {
    hide RepliesTo, StreamOf;
    assert ClientInv(RepliesTo(z.env, z.requests[c]), z.requests[c], s.clients[c]);
  }

  lemma EntryStays(z: Setup, s: System, t: Step, e: CaseOutput)
    requires Enabled(z, s, t) && ClientsInv(z, s) && EntryOf(z, s, e)
    ensures EntryOf(z, Apply(z, s, t), e)
  {
    hide Apply, Enabled, ClientsInv;
    DoneStaysDone(z, s, t, e.client);
    SizesStay(z, s, t);
    var (a, b) := (s.clients[e.client], Apply(z, s, t).clients[e.client]);
    assert b.published[a.received - 1] == a.published[a.received - 1];
  }

  lemma SizesStay(z: Setup, s: System, t: Step)
    requires Enabled(z, s, t)
    ensures Sized(z, s) && Sized(z, Apply(z, s, t))
  {
  }

  lemma NewlyDone(z: Setup, s: System, t: Step, c: nat)
    requires Enabled(z, s, t) && PlacesInv(z, s) && ClientsInv(z, s) && c < |s.clients|
    requires z.requests[c].kind.Collected?
    requires !s.clients[c].phase.Done? && Apply(z, s, t).clients[c].phase.Done?
    ensures t == Receive(c)
    ensures |Apply(z, s, t).collected| == |s.collected| + 1
    ensures Apply(z, s, t).collected[|s.collected|].client == c
    ensures EntryOf(z, Apply(z, s, t), Apply(z, s, t).collected[|s.collected|])
  {
    hide RepliesTo, StreamOf, Received, Forwarded, MayLaunch;
    assert ClientInv(RepliesTo(z.env, z.requests[c]), z.requests[c], s.clients[c]);
  }

  lemma CollectedGrows(z: Setup, s: System, t: Step)
    requires Enabled(z, s, t)
    ensures var after := Apply(z, s, t).collected;
            && s.collected <= after
            && (after == s.collected
                || (&& t.Receive? && t.client < |s.clients|
                    && |after| == |s.collected| + 1 && after[|s.collected|].client == t.client
                    && z.requests[t.client].kind.Collected?
                    && s.clients[t.client].phase.Consuming? && Apply(z, s, t).clients[t.client].phase.Done?))
  {
    hide RepliesTo;
  }

  lemma StepKeepsCollected(z: Setup, s: System, t: Step)
    requires Enabled(z, s, t) && PlacesInv(z, s) && ClientsInv(z, s) && CollectedInv(z, s)
    ensures CollectedInv(z, Apply(z, s, t))
  {
    hide Apply, Enabled, ClientsInv, PlacesInv, Received, ReadBack;
    var s' := Apply(z, s, t);
    SizesStay(z, s, t);
    CollectedGrows(z, s, t);
    var n := |s.collected|;
    forall i | 0 <= i < |s'.collected| ensures EntryOf(z, s', s'.collected[i]) {
      if i < n {
        assert s'.collected[i] == s.collected[i];
        EntryStays(z, s, t, s.collected[i]);
      } else {
        NewlyDone(z, s, t, t.client);
      }
    }
    forall i, j | 0 <= i < j < |s'.collected| ensures s'.collected[i].client != s'.collected[j].client {
      assert s'.collected[i] == s.collected[i] && EntryOf(z, s, s.collected[i]);
      if j < n { assert s'.collected[j] == s.collected[j]; }
    }
    forall c: nat | c < |s'.clients| && z.requests[c].kind.Collected? && s'.clients[c].phase.Done?
      ensures exists i :: 0 <= i < |s'.collected| && s'.collected[i].client == c
    {
      if s.clients[c].phase.Done? {
        var i :| 0 <= i < n && s.collected[i].client == c;
        assert s'.collected[i].client == c;
      } else {
        NewlyDone(z, s, t, c);
        assert s'.collected[n].client == c;
      }
    }
  }

  /** An execution of a GenerateTestCases call goes under way when it is submitted. */
  lemma NewlyLive(z: Setup, s: System, t: Step, call: nat, d: nat)
    requires Enabled(z, s, t) && ClientsInv(z, s)
    ensures |Apply(z, s, t).clients| == |s.clients| == |z.requests|
    ensures d in Live(z, Apply(z, s, t), call) && d !in Live(z, s, call) ==>
              t == Submit(d) && |Live(z, s, call)| < GENERATE_LIMIT
  {
    hide RepliesTo, StreamOf, Received, Forwarded;
    var m := Mover(z, s, t);
    assert ClientInv(RepliesTo(z.env, z.requests[m]), z.requests[m], s.clients[m]);
    hide ClientsInv;
  }

  lemma StepKeepsLimit(z: Setup, s: System, t: Step)
    requires Enabled(z, s, t) && ClientsInv(z, s) && LimitInv(z, s)
    ensures LimitInv(z, Apply(z, s, t))
  {
    hide Apply, Enabled, ClientsInv, Live;
    var s' := Apply(z, s, t);
    SizesStay(z, s, t);
    forall call: nat ensures |Live(z, s', call)| <= GENERATE_LIMIT {
      forall d: nat ensures d in Live(z, s', call) && d !in Live(z, s, call) ==>
                              t == Submit(d) && |Live(z, s, call)| < GENERATE_LIMIT {
        NewlyLive(z, s, t, call, d);
      }
      if d: nat :| d in Live(z, s', call) && d !in Live(z, s, call) {
        SubsetSize(Live(z, s', call), Live(z, s, call) + {d});
      } else {
        SubsetSize(Live(z, s', call), Live(z, s, call));
      }
    }
  }

  lemma NextKeepsInv(z: Setup, s: System, s': System)
    requires Inv(z, s) && Next(z, s, s')
    ensures Inv(z, s')
  {
    hide PlacesInv, CollectedInv, Apply, Enabled, Live;
    var t :| Enabled(z, s, t) && s' == Apply(z, s, t);
    forall c: nat | c < |s.clients| ensures s.clients[c].phase.Idle? <==> s.clients[c].place.Nowhere? {
      assert ClientInv(RepliesTo(z.env, z.requests[c]), z.requests[c], s.clients[c]);
    }
    hide ClientInv;
    StepKeepsPlaces(z, s, t);
    StepKeepsClients(z, s, t);
    StepKeepsCollected(z, s, t);
    StepKeepsLimit(z, s, t);
  }

  lemma StartInv(z: Setup)
    ensures Inv(z, Start(z))
  {
    hide RepliesTo;
    assert forall call: nat :: Live(z, Start(z), call) == {};
  }

  lemma {:induction false} InvInEveryRun(z: Setup, run: seq<System>, i: nat)
    requires Run(z, run) && i < |run|
    ensures Inv(z, run[i])
  {
    hide Inv, Next, Start;
    if i == 0 {
      StartInv(z);
    } else {
      InvInEveryRun(z, run, i - 1);
      assert Next(z, run[i - 1], run[i - 1 + 1]);
      NextKeepsInv(z, run[i - 1], run[i]);
    }
  }

  lemma InvWhenReachable(z: Setup, s: System)
    requires Reachable(z, s)
    ensures Inv(z, s)
  {
    hide Inv, Next, Start;
    var run :| Run(z, run) && run[|run| - 1] == s;
    InvInEveryRun(z, run, |run| - 1);
  }

  // ---- what clients see ---------------------------------------------------------------------------

  /** QUEUED first, then at most one RUNNING, then at most one terminal status, under one id. */
  ghost predicate ProtocolStream(id: string, stream: seq<Response>, answered: bool) {
    && |stream| <= 3
    && (forall i :: 0 <= i < |stream| ==> stream[i].executionId == id)
    && (stream != [] ==> stream[0].status == QUEUED)
    && (forall i :: 1 <= i < |stream| - 1 ==> stream[i].status == RUNNING)
    && (|stream| > 1 && !answered ==> |stream| == 2 && stream[1].status == RUNNING)
    && (answered <==> stream != [] && Terminal(stream[|stream| - 1].status))
  }

  /** The messages received so far, told apart by the phase. */
  predicate ReceivedShape(q: Request, c: Client) {
    && c.received <= 2 && c.received <= |c.published|
    && (forall i :: 0 <= i < c.received && c.published[i].Encoded? ==> c.published[i].result.id == q.id)
    && (c.received == 2 ==> IsProgress(c.published[0]))
    && match c.phase
       case Done => c.received > 0 && IsTerminal(c.published[c.received - 1])
       case Broken => c.received > 0 && c.published[c.received - 1].Empty?
       case Consuming => c.received == 0 || (c.received == 1 && IsProgress(c.published[0]))
       case _ => true
  }

  lemma ReceivedSoFar(env: Env, q: Request, c: Client)
    requires ClientInv(RepliesTo(env, q), q, c)
    ensures ReceivedShape(q, c)
  {
    hide RepliesTo, StreamOf, Answerable;
    RepliesShape(env, q);
    var replies := RepliesTo(env, q);
    assert forall i :: 0 <= i < |c.published| ==> c.published[i] == replies[i] && replies[i] in replies;
    if c.phase.Consuming? && c.received > 0 {
      var last := c.published[..c.received][c.received - 1];
      assert last == replies[c.received - 1] && last in c.published[..c.received];
    }
  }

  lemma StreamShape(env: Env, q: Request, c: Client)
    requires q.kind.Streamed? && ClientInv(RepliesTo(env, q), q, c)
    ensures ProtocolStream(q.id, c.stream, c.phase.Done?)
  {
    hide RepliesTo, Forwarded;
    ReceivedSoFar(env, q, c);
    assert StreamOf(q, c);
    hide ClientInv;
    forall r: RunResult<Float32> | r.id == q.id
      ensures Forwarded(r).executionId == q.id && Forwarded(r).status == r.status
    {
      ForwardedHead(r);
    }
  }

  lemma ForwardedHead(r: RunResult<Float32>)
    requires forall c :: c in r.id ==> c < '\U{80}'
    ensures Forwarded(r).executionId == r.id && Forwarded(r).status == r.status
  {
    hide ReadBack;
    AsciiIsReadBack(r.id);
  }

  /** Safety: in every reachable state of every interleaving, every stream has the promised shape. */
  lemma EveryStreamIsWellFormed(z: Setup, s: System, c: nat)
    requires Reachable(z, s) && c < |z.requests| && z.requests[c].kind.Streamed?
    ensures |s.clients| == |z.requests|
    ensures ProtocolStream(z.requests[c].id, s.clients[c].stream, s.clients[c].phase.Done?)
  {
    InvWhenReachable(z, s);
    assert ClientInv(RepliesTo(z.env, z.requests[c]), z.requests[c], s.clients[c]);
    hide ClientInv, RepliesTo;
    StreamShape(z.env, z.requests[c], s.clients[c]);
  }

  /** No message that a worker publishes is ever over the broker's limit. */
  lemma EveryMessageFits(z: Setup, s: System, c: nat, m: Message)
    requires Reachable(z, s) && c < |z.requests|
    ensures |s.clients| == |z.requests|
    ensures m in s.clients[c].published ==> m.Size() <= 16 * 1024 * 1024
  {
    InvWhenReachable(z, s);
    assert ClientInv(RepliesTo(z.env, z.requests[c]), z.requests[c], s.clients[c]);
    hide RepliesTo;
    RepliesFit(z.env, z.requests[c]);
  }

  /** At most ten of a GenerateTestCases call's executions are under way. */
  lemma GenerateIsBounded(z: Setup, s: System, call: nat)
    requires Reachable(z, s)
    ensures |s.clients| == |z.requests| && |Live(z, s, call)| <= 10
  {
    InvWhenReachable(z, s);
  }
}
