/** Every run of the protocol ends, and where it ends every call has had its answer. */
module ProtocolAnswers {
  import opened Floats
  import opened GoInt
  import opened Json
  import opened JsonStrings
  import opened Models
  import opened Outcomes
  import opened Sandbox
  import opened Replies
  import opened Protocol
  import opened ProtocolProofs

  // ---- every run ends -----------------------------------------------------------------------------

  function Left(total: nat, done: nat): nat { if done < total then total - done else 0 }

  /** How many more steps a call can take. */
  function Rest(replies: nat, c: Client): nat {
    (match c.phase case Idle => 2 case Submitted => 1 case _ => 0)
    + (match c.place
       case Nowhere => replies + 3
       case InQueue => replies + 2
       case At(_, sent) => Left(replies, sent) + 1
       case Handled => 0)
    + Left(replies, c.received)
  }

  function TotalRest(z: Setup, clients: seq<Client>): nat
    requires |clients| <= |z.requests|
  {
    if clients == [] then 0
    else
      var n := |clients| - 1;
      TotalRest(z, clients[..n]) + Rest(|RepliesTo(z.env, z.requests[n])|, clients[n])
  }

  lemma {:induction false} TotalRestOfUpdate(z: Setup, clients: seq<Client>, m: nat, c: Client)
    requires |clients| <= |z.requests| && m < |clients|
    ensures var replies := |RepliesTo(z.env, z.requests[m])|;
            TotalRest(z, clients[m := c]) + Rest(replies, clients[m]) == TotalRest(z, clients) + Rest(replies, c)
  {
    hide RepliesTo, Rest;
    var n := |clients| - 1;
    if m == n {
      assert clients[m := c][..n] == clients[..n];
    } else {
      TotalRestOfUpdate(z, clients[..n], m, c);
      assert clients[m := c][..n] == clients[..n][m := c];
    }
  }

  lemma MoverRestDecreases(z: Setup, s: System, t: Step)
    requires Enabled(z, s, t) && PlacesInv(z, s) && ClientsInv(z, s)
    ensures var m := Mover(z, s, t);
            var replies := |RepliesTo(z.env, z.requests[m])|;
            Rest(replies, Moved(z, s, t)) < Rest(replies, s.clients[m])
  {
    hide RepliesTo, StreamOf, MayLaunch;
    var m := Mover(z, s, t);
    assert ClientInv(RepliesTo(z.env, z.requests[m]), z.requests[m], s.clients[m]);
  }

  lemma StepUsesRest(z: Setup, s: System, t: Step)
    requires Enabled(z, s, t) && Inv(z, s)
    ensures |Apply(z, s, t).clients| == |z.requests|
    ensures TotalRest(z, Apply(z, s, t).clients) < TotalRest(z, s.clients)
  {
    hide RepliesTo, Rest, ClientInv, Live;
    MoverRestDecreases(z, s, t);
    TotalRestOfUpdate(z, s.clients, Mover(z, s, t), Moved(z, s, t));
  }

  /** Termination: no run has more steps than the work it starts with. */
  lemma {:induction false} RunsEnd(z: Setup, run: seq<System>)
    requires Run(z, run)
    ensures |run[|run| - 1].clients| == |z.requests|
    ensures |run| - 1 + TotalRest(z, run[|run| - 1].clients) <= TotalRest(z, Start(z).clients)
  {
    hide Next, RepliesTo, Rest, Inv;
    if |run| > 1 {
      var before := run[..|run| - 1];
      var s, s' := before[|before| - 1], run[|run| - 1];
      assert Next(z, run[|run| - 2], run[|run| - 2 + 1]);
      RunsEnd(z, before);
      InvInEveryRun(z, before, |before| - 1);
      NextUsesRest(z, s, s');
    }
  }

  lemma NextUsesRest(z: Setup, s: System, s': System)
    requires Next(z, s, s') && Inv(z, s)
    ensures |s.clients| == |s'.clients| == |z.requests|
    ensures TotalRest(z, s'.clients) < TotalRest(z, s.clients)
  {
    assert Sized(z, s);
    hide Apply, Enabled, RepliesTo, Rest, Inv;
    var t :| Enabled(z, s, t) && s' == Apply(z, s, t);
    StepUsesRest(z, s, t);
  }

  // ---- where it ends ------------------------------------------------------------------------------

  /** With a worker at all, a request in the queue or with a handler means that some step can be taken. */
  lemma BusyCanStep(z: Setup, s: System, c: nat) returns (t: Step)
    requires PlacesInv(z, s) && z.slots > 0 && c < |s.clients|
    requires s.clients[c].place.InQueue? || s.clients[c].place.At?
    ensures Enabled(z, s, t) && !t.Receive?
  {
    hide RepliesTo;
    if s.clients[c].place.At? {
      t := Handle(s.clients[c].place.slot);
    } else {
      assert s.work != [] && s.work[0] in s.work;
      t := if s.slots[0].None? then Take(0) else Handle(0);
    }
  }

  /** Where the run has ended, a call that was made has its answer, or can never have one. */
  ghost predicate Settled(env: Env, q: Request, c: Client) {
    && c.published == RepliesTo(env, q)
    && match c.phase
       case Done => Answerable(env, q) && c.received == |c.published|
       case Broken => q.decodable && !Answerable(env, q) && c.received == |c.published|
       case Consuming => !q.decodable && c.received == 0
       case _ => false
  }

  lemma QuietSettled(z: Setup, s: System, c: nat)
    requires Inv(z, s) && Quiet(z, s) && z.slots > 0 && c < |s.clients| && !s.clients[c].phase.Idle?
    ensures Settled(z.env, z.requests[c], s.clients[c])
  {
    var q, cl := z.requests[c], s.clients[c];
    assert ClientInv(RepliesTo(z.env, q), q, cl);
    hide RepliesTo, Answerable, MayLaunch, StreamOf;
    if cl.place.InQueue? || cl.place.At? {
      var t := BusyCanStep(z, s, c);
    }
    assert !Enabled(z, s, Accept(c));
    assert !Enabled(z, s, Receive(c));
    ReceivedSoFar(z.env, q, cl);
    RepliesShape(z.env, q);
    assert cl.published == RepliesTo(z.env, q);
  }

  /**
   * Liveness: where a run has ended, a Run call has had its terminal status iff its request was decoded and its result
   * can be encoded, and its stream is then QUEUED followed by everything the handler published.
   */
  lemma RunCallsAreAnswered(z: Setup, s: System, c: nat)
    requires Reachable(z, s) && Quiet(z, s) && z.slots > 0 && c < |z.requests| && z.requests[c].kind.Streamed?
    ensures |s.clients| == |z.requests|
    ensures s.clients[c].phase.Done? <==> Answerable(z.env, z.requests[c])
    ensures Answerable(z.env, z.requests[c]) ==>
              var replies := RepliesTo(z.env, z.requests[c]);
              && (forall m :: m in replies ==> m.Encoded?)
              && s.clients[c].stream == [QueuedResponse(z.requests[c].id)] + ForwardedAll(replies)
  {
    InvWhenReachable(z, s);
    assert ClientInv(RepliesTo(z.env, z.requests[c]), z.requests[c], s.clients[c]);
    assert StreamOf(z.requests[c], s.clients[c]);
    assert !Enabled(z, s, Submit(c));
    hide RepliesTo, Answerable, ClientInv, Inv;
    assert !s.clients[c].phase.Idle?;
    assert Inv(z, s);
    QuietSettled(z, s, c);
    var cl := s.clients[c];
    assert cl.phase.Done? ==> cl.published[..cl.received] == cl.published;
  }

  /** What the client sees of a reply that holds just a status and a text without special characters. */
  lemma SayingIsForwarded(id: ExecutionId, status: Status, text: string)
    requires forall c :: c in text ==> c < '\U{80}'
    ensures Forwarded(Saying(id, status, text).result) == Response(id, status, text, Number(false, "", 0), 0)
  {
    hide ReadBack;
    AsciiIsReadBack(id);
    AsciiIsReadBack(text);
  }

  lemma TooLargeIsAscii()
    ensures forall c :: c in "[result too large to return]" ==> c < '\U{80}'
  {
  }

  /**
   * What the client of a Run call has seen in the end: that it was queued, that it runs, and then the status with which
   * its program ended, what it printed with the bytes replaced that are no characters, and its time and memory; or,
   * where that is over 16 MiB as JSON, a note that says so.
   */
  lemma RunCallsAreTold(z: Setup, s: System, c: nat, status: Status, printed: string, wallTime: Float32, memory: int32)
    requires Reachable(z, s) && Quiet(z, s) && z.slots > 0 && c < |z.requests| && z.requests[c].kind.Streamed?
    requires z.requests[c].decodable && z.requests[c].program.Some? && wallTime.Number?
    requires RunEnds(z.env, z.requests[c].program.value, status, printed, wallTime, memory)
    ensures |s.clients| == |z.requests|
    ensures var id := z.requests[c].id;
            s.clients[c].stream ==
            [Response(id, QUEUED, "", Number(false, "", 0), 0),
             Response(id, RUNNING, "", Number(false, "", 0), 0),
             if Encode(RunResult(id, status, printed, wallTime, memory, 0, "")).Size() <= 16 * 1024 * 1024
             then Response(id, status, Sanitized(printed), wallTime, memory)
             else Response(id, GRADER_ERROR, "[result too large to return]", Number(false, "", 0), 0)]
  {
    hide Reachable, Quiet, RepliesTo, Answerable, RunEnds, MarshalRun, ReadBack, Forwarded;
    var q := z.requests[c];
    var own := RunResult(q.id, status, printed, wallTime, memory, 0, "");
    RunIsAnswered(z.env, q, q.program.value, status, printed, wallTime, memory);
    ResultIsEncoded(own);
    RepliesShape(z.env, q);
    RunCallsAreAnswered(z, s, c);
    SayingIsForwarded(q.id, RUNNING, "");
    TooLargeIsAscii();
    SayingIsForwarded(q.id, GRADER_ERROR, "[result too large to return]");
    OwnIsForwarded(own);
    var replies := RepliesTo(z.env, q);
    assert ForwardedAll(replies) == [Forwarded(replies[0].result), Forwarded(replies[1].result)];
  }

  lemma OwnIsForwarded(own: RunResult<Float32>)
    requires forall c :: c in own.id ==> c < '\U{80}'
    ensures Forwarded(own) == Response(own.id, own.status, Sanitized(own.output), own.wallTime, own.memory)
  {
    hide ReadBack;
    AsciiIsReadBack(own.id);
  }

  /**
   * What the client of a Run call gets as output is what its program printed, all of it, if and only if that is valid
   * UTF-8 and not over 16 MiB as JSON: the master decodes each reply before it forwards it.
   */
  lemma RunOutputIsOwnIff(z: Setup, s: System, c: nat, status: Status, printed: string, wallTime: Float32,
                          memory: int32)
    requires Reachable(z, s) && Quiet(z, s) && z.slots > 0 && c < |z.requests| && z.requests[c].kind.Streamed?
    requires z.requests[c].decodable && z.requests[c].program.Some? && wallTime.Number?
    requires RunEnds(z.env, z.requests[c].program.value, status, printed, wallTime, memory)
    ensures |s.clients| == |z.requests| && |s.clients[c].stream| == 3
    ensures var id := z.requests[c].id;
            s.clients[c].stream[2] == Response(id, status, printed, wallTime, memory) <==>
            ValidUtf8(printed)
            && Encode(RunResult(id, status, printed, wallTime, memory, 0, "")).Size() <= 16 * 1024 * 1024
  {
    hide Reachable, Quiet, RunEnds, MarshalRun, ValidUtf8;
    RunCallsAreTold(z, s, c, status, printed, wallTime, memory);
    assert Sanitized(printed) == printed <==> ValidUtf8(printed) by { var r := ReadBack(printed); }
    RunEndsTerminally(z.env, z.requests[c].program.value, status, printed, wallTime, memory);
  }

  lemma RunEndsTerminally(env: Env, p: Program, status: Status, printed: string, wallTime: Float32, memory: int32)
    requires RunEnds(env, p, status, printed, wallTime, memory)
    ensures status in {COMPILE_FAILED, RUN_FAILED, RUN_PASSED}
  {
    hide CompileFails, Executes, Reports;
  }

  /** The other calls that are answered: the runner is unknown, or the run is an error. */
  lemma OtherCallsAreTold(z: Setup, s: System, c: nat)
    requires Reachable(z, s) && Quiet(z, s) && z.slots > 0 && c < |z.requests| && z.requests[c].kind.Streamed?
    requires z.requests[c].decodable
    ensures |s.clients| == |z.requests|
    ensures var (id, stream) := (z.requests[c].id, s.clients[c].stream);
            var (queued, running, failed) := (Response(id, QUEUED, "", Number(false, "", 0), 0),
                                              Response(id, RUNNING, "", Number(false, "", 0), 0),
                                              Response(id, GRADER_ERROR, "", Number(false, "", 0), 0));
            && (z.requests[c].program.None? ==> stream == [queued, failed])
            && (z.requests[c].program.Some?
                && !(exists status, printed, wallTime, memory ::
                       RunEnds(z.env, z.requests[c].program.value, status, printed, wallTime, memory)) ==>
                  stream == [queued, running, failed])
  {
    hide Reachable, Quiet, RepliesTo, Answerable, RunEnds, MarshalRun, ReadBack, Forwarded;
    var q := z.requests[c];
    OthersAreAnswered(z.env, q);
    AnswerableIff(z.env, q);
    RunCallsAreAnswered(z, s, c);
    SayingIsForwarded(q.id, RUNNING, "");
    SayingIsForwarded(q.id, GRADER_ERROR, "");
    var replies := RepliesTo(z.env, q);
    if q.program.None? {
      assert ForwardedAll(replies) == [Forwarded(replies[0].result)];
    } else if !(exists status, printed, wallTime, memory ::
                  RunEnds(z.env, q.program.value, status, printed, wallTime, memory)) {
      assert ForwardedAll(replies) == [Forwarded(replies[0].result), Forwarded(replies[1].result)];
    }
  }

  /** The worker decodes every request of the call. */
  ghost predicate CallIsDecoded(z: Setup, call: nat) {
    forall d: nat :: d < |z.requests| && OfCall(z.requests[d], call) ==> z.requests[d].decodable
  }

  /** Where a run has ended, every case of a GenerateTestCases call has been executed and collected, or cannot be. */
  lemma GenerateCallIsAnswered(z: Setup, s: System, call: nat, c: nat)
    requires Reachable(z, s) && Quiet(z, s) && z.slots > 0 && c < |z.requests| && OfCall(z.requests[c], call)
    requires CallIsDecoded(z, call)
    ensures |s.clients| == |z.requests|
    ensures s.clients[c].phase == if Answerable(z.env, z.requests[c]) then Done else Broken
    ensures Settled(z.env, z.requests[c], s.clients[c])
  {
    InvWhenReachable(z, s);
    hide RepliesTo, Answerable, ClientsInv, PlacesInv, CollectedInv;
    assert Sized(z, s) by { NothingLost(z, s); }
    assert Live(z, s, call) == {} by {
      forall d: nat | d < |s.clients| && OfCall(z.requests[d], call) && s.clients[d].phase.Consuming? ensures false {
        QuietSettled(z, s, d);
      }
    }
    if s.clients[c].phase.Idle? {
      FirstIdleLaunches(z, s, call, c);
    }
    QuietSettled(z, s, c);
  }

  lemma NothingLost(z: Setup, s: System)
    requires PlacesInv(z, s)
    ensures Sized(z, s)
  {
  }

  /** With nothing of a call under way, its first case that is not launched yet may be. */
  lemma {:induction false} FirstIdleLaunches(z: Setup, s: System, call: nat, c: nat)
    requires Sized(z, s) && c < |s.clients| && OfCall(z.requests[c], call) && s.clients[c].phase.Idle?
    requires Live(z, s, call) == {}
    ensures exists d :: Enabled(z, s, Submit(d))
    decreases z.requests[c].kind.index
  {
    if d: nat :| d < |s.clients| && OfCall(z.requests[d], call) && z.requests[d].kind.index < z.requests[c].kind.index
                 && s.clients[d].phase.Idle? {
      FirstIdleLaunches(z, s, call, d);
    } else {
      assert Enabled(z, s, Submit(c));
    }
  }
}
