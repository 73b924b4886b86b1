/**
 * cmd/master/master.go: the bodies of Run and GenerateTestCases, with each request handled by a worker as soon as it
 * is published. Protocol covers the other interleavings.
 */
module Master {
  import opened Executor
  import opened Floats
  import opened Generate
  import opened Isolate
  import opened Models
  import opened Protocol
  import opened ProtocolProofs
  import opened Replies
  import opened Sandbox
  import opened Sorting

  class ResponseStream {
    var sent: seq<Response>

    method Send(r: Response)
      modifies this
      ensures sent == old(sent) + [r]
    {
      sent := sent + [r];
    }
  }

  /** The replies up to the first that ends consumption: a terminal status, or a body that cannot be decoded. */
  function Consumed(ms: seq<Message>): seq<Message> {
    if ms == [] then []
    else if ms[0].Empty? || IsTerminal(ms[0]) then [ms[0]]
    else [ms[0]] + Consumed(ms[1..])
  }

  /** A call is answered iff the last reply it consumes has a terminal status. */
  predicate Answered(ms: seq<Message>) {
    Consumed(ms) != [] && IsTerminal(Consumed(ms)[|Consumed(ms)| - 1])
  }

  /** How consumption ends: answered, with a body that cannot be decoded, or not at all, for want of replies. */
  function Ending(ms: seq<Message>): Ended<bool> {
    var shown := Consumed(ms);
    if Answered(ms) then Value(true)
    else if shown != [] && shown[|shown| - 1].Empty? then Value(false)
    else Blocked
  }

  /** Progress does not end consumption; what comes after it does, if it stops at all. */
  lemma {:induction false} ConsumedSoFar(ms: seq<Message>, n: nat)
    requires n <= |ms| && AllProgress(ms[..n])
    ensures n == |ms| ==> Consumed(ms) == ms
    ensures n < |ms| && (ms[n].Empty? || IsTerminal(ms[n])) ==> Consumed(ms) == ms[..n + 1]
    ensures n < |ms| && !(ms[n].Empty? || IsTerminal(ms[n])) ==> AllProgress(ms[..n + 1])
  {
    if n > 0 {
      assert ms[0] == ms[..n][0] && ms[0] in ms[..n];
      assert ms[1..][..n - 1] == ms[..n][1..];
      ConsumedSoFar(ms[1..], n - 1);
    }
    if n < |ms| {
      assert ms[..n + 1] == ms[..n] + [ms[n]];
    }
  }

  /** What RepliesShape says of the replies to a request. */
  predicate ReplyShape(q: Request, ms: seq<Message>, answerable: bool) {
    && |ms| <= 2
    && (forall i :: 0 <= i < |ms| && ms[i].Encoded? ==> ms[i].result.id == q.id)
    && (|ms| == 2 ==> IsProgress(ms[0]))
    && (answerable ==> ms != [])
    && (ms != [] ==> if answerable then IsTerminal(ms[|ms| - 1]) else ms[|ms| - 1].Empty?)
  }

  lemma RepliesHaveShape(env: Env, q: Request)
    ensures ReplyShape(q, RepliesTo(env, q), Answerable(env, q))
  {
    hide RepliesTo, Answerable, IsTerminal, IsProgress;
    RepliesShape(env, q);
    var ms := RepliesTo(env, q);
    forall i | 0 <= i < |ms| && ms[i].Encoded? ensures ms[i].result.id == q.id {
      assert ms[i] in ms;
    }
  }

  lemma ShapeIsConsumed(q: Request, ms: seq<Message>, answerable: bool)
    requires ReplyShape(q, ms, answerable)
    ensures Consumed(ms) == ms && Ending(ms) == if ms == [] then Blocked else Value(answerable)
  {
    if |ms| == 2 {
      assert ms[1..] == [ms[1]];
      assert Consumed(ms) == [ms[0]] + Consumed(ms[1..]);
    } else if |ms| == 1 {
      assert ms == [ms[0]];
    }
  }

  /** The messages that can be shown: all but a last one that cannot be decoded. */
  function Shown(ms: seq<Message>): seq<Message> {
    if ms != [] && ms[|ms| - 1].Empty? then ms[..|ms| - 1] else ms
  }

  lemma ShapeIsWellFormed(q: Request, ms: seq<Message>, answerable: bool, stream: seq<Response>)
    requires ReplyShape(q, ms, answerable)
    requires (forall m :: m in Shown(ms) ==> m.Encoded?) && stream == [QueuedResponse(q.id)] + ForwardedAll(Shown(ms))
    ensures ProtocolStream(q.id, stream, answerable)
  {
    hide Forwarded;
    forall r: RunResult<Float32> | r.id == q.id
      ensures Forwarded(r).executionId == q.id && Forwarded(r).status == r.status
    {
      ForwardedHead(r);
    }
  }

  lemma AnsweredIsShown(q: Request, ms: seq<Message>)
    requires ReplyShape(q, ms, true)
    ensures Shown(ms) == ms && forall m :: m in ms ==> m.Encoded?
  {
  }

  /** Run's consumer: forwards replies until one is terminal, or cannot be decoded. */
  method ForwardReplies(queue: ReplyQueue, stream: ResponseStream) returns (end: Ended<bool>)
    modifies stream
    ensures end == Ending(queue.messages)
    ensures forall m :: m in Shown(Consumed(queue.messages)) ==> m.Encoded?
    ensures stream.sent == old(stream.sent) + ForwardedAll(Shown(Consumed(queue.messages)))
  {
    hide Consumed, AllProgress, Forwarded;
    var ms := queue.messages;
    var n := 0;
    NoProgressYet(ms);
    while n < |ms|
      invariant 0 <= n <= |ms|
      invariant AllProgress(ms[..n]) && forall m :: m in ms[..n] ==> m.Encoded?
      invariant stream.sent == old(stream.sent) + ForwardedAll(ms[..n])
    {
      var result := ms[n];
      ConsumedSoFar(ms, n);
      assert ms[..n + 1] == ms[..n] + [result];
      if result.Empty? {
        assert ms[..n + 1][..n] == ms[..n];
        return Value(false);
      }
      assert ForwardedAll(ms[..n + 1]) == ForwardedAll(ms[..n]) + [Forwarded(result.result)];
      stream.Send(Forwarded(result.result));
      if result.result.status != QUEUED && result.result.status != RUNNING {
        return Value(true);
      }
      n := n + 1;
    }
    ConsumedSoFar(ms, n);
    assert ms[..n] == ms;
    ProgressIsNoAnswer(ms);
    return Blocked;
  }

  lemma NoProgressYet(ms: seq<Message>)
    ensures AllProgress(ms[..0])
  {
  }

  lemma ProgressIsNoAnswer(ms: seq<Message>)
    requires AllProgress(ms)
    ensures Consumed(ms) == ms && Ending(ms) == Blocked
  {
    assert ms[..|ms|] == ms;
    ConsumedSoFar(ms, |ms|);
  }

  /** Run; true when the stream has had its terminal status, false where a reply cannot be decoded. */
  method Run(env: Env, service: IsolateService, q: Request, stream: ResponseStream) returns (end: Ended<bool>)
    requires q.kind.Streamed?
    modifies service, stream
    ensures end.Value? ==> q.decodable && (end.value <==> Answerable(env, q))
    ensures end.Blocked? ==> !q.decodable || (q.program.Some? && old(service.runBoxIds) == [])
    ensures old(stream.sent) <= stream.sent
    ensures end.Value? ==> ProtocolStream(q.id, stream.sent[|old(stream.sent)|..], end.value)
    ensures end.Value? && end.value ==>
              && (forall m :: m in RepliesTo(env, q) ==> m.Encoded?)
              && stream.sent == old(stream.sent) + [QueuedResponse(q.id)] + ForwardedAll(RepliesTo(env, q))
  {
    hide RepliesTo, Answerable, ProtocolStream, Consumed, Ending, Shown, ReplyShape, ForwardedAll;
    var queue := new ReplyQueue();
    stream.Send(QueuedResponse(q.id));
    var handled := HandleRun(env, service, q, queue);
    if !handled.Value? {
      return handled;
    }
    var ms := queue.messages;
    assert ms == RepliesTo(env, q);
    RepliesShape(env, q);
    RepliesHaveShape(env, q);
    ShapeIsConsumed(q, ms, Answerable(env, q));
    end := ForwardReplies(queue, stream);
    var shown := [QueuedResponse(q.id)] + ForwardedAll(Shown(ms));
    assert stream.sent == old(stream.sent) + shown;
    assert stream.sent[|old(stream.sent)|..] == shown;
    if end.Value? && end.value { AnsweredIsShown(q, ms); }
    if end.Value? {
      ShapeIsWellFormed(q, ms, end.value, stream.sent[|old(stream.sent)|..]);
    }
  }

  /** The consumer of one case in GenerateTestCases: the output of the terminal reply, or None for a decoding error. */
  method LastOutput(queue: ReplyQueue) returns (end: Ended<Option<string>>)
    ensures end == match Ending(queue.messages)
                   case Value(true) =>
                     var shown := Consumed(queue.messages);
                     Value(Some(Received(shown[|shown| - 1].result).output))
                   case Value(false) => Value(None)
                   case _ => Blocked
  {
    hide Consumed, AllProgress, Received;
    var ms := queue.messages;
    var n := 0;
    NoProgressYet(ms);
    while n < |ms|
      invariant 0 <= n <= |ms|
      invariant AllProgress(ms[..n])
    {
      var result := ms[n];
      ConsumedSoFar(ms, n);
      if result.Empty? {
        return Value(None);
      }
      if result.result.status != QUEUED && result.result.status != RUNNING {
        return Value(Some(Received(result.result).output));
      }
      n := n + 1;
    }
    assert ms[..n] == ms;
    ProgressIsNoAnswer(ms);
    return Blocked;
  }

  /** One goroutine of GenerateTestCases: the response that it appends, or None for an error. */
  method CollectOne(env: Env, service: IsolateService, q: Request, c: Case)
    returns (end: Ended<Option<TestCaseResponse>>)
    modifies service
    ensures end.Value? ==> (end.value.Some? <==> Answerable(env, q)) && |service.runBoxIds| == |old(service.runBoxIds)|
    ensures end.Value? && end.value.Some? ==> Pairs(env, q, c, end.value.value)
    ensures end.Blocked? ==> old(service.runBoxIds) == [] || !q.decodable
  {
    hide RepliesTo, Answerable, Consumed, Received, ReplyShape, Ending;
    var queue := new ReplyQueue();
    var handled := HandleRun(env, service, q, queue);
    if !handled.Value? {
      return if handled.Blocked? then Blocked else Exited;
    }
    var ms := queue.messages;
    assert ms == RepliesTo(env, q);
    RepliesShape(env, q);
    RepliesHaveShape(env, q);
    ShapeIsConsumed(q, ms, Answerable(env, q));
    var output := LastOutput(queue);
    if !output.Value? {
      return Blocked;
    }
    if output.value.None? {
      return Value(None);
    }
    return Value(Some(TestCaseResponse(c.id, c.order, c.input, output.value.value)));
  }

  /** The loop of GenerateTestCases: the collected responses, or None where the call fails, which does not stop it. */
  method CollectResults(env: Env, service: IsolateService, requests: seq<Request>, cases: seq<Case>)
    returns (end: Ended<Option<Responses>>)
    requires |requests| == |cases|
    modifies service
    ensures end.Value? ==> (end.value.Some? <==> AllAnswerable(env, requests))
    ensures end.Value? && end.value.Some? ==>
              |end.value.value| == |cases| && forall c :: 0 <= c < |cases| ==>
                                                Pairs(env, requests[c], cases[c], end.value.value[c])
    ensures end.Blocked? ==> old(service.runBoxIds) == [] || exists c :: 0 <= c < |requests| && !requests[c].decodable
  {
    hide Answerable, OutputOf, RepliesTo;
    var runResults, failed := [], false;
    for n := 0 to |cases|
      invariant |service.runBoxIds| == |old(service.runBoxIds)|
      invariant failed <==> exists c :: 0 <= c < n && !Answerable(env, requests[c])
      invariant !failed ==> |runResults| == n
      invariant !failed ==> forall c :: 0 <= c < n ==> Pairs(env, requests[c], cases[c], runResults[c])
    {
      var one := CollectOne(env, service, requests[n], cases[n]);
      if !one.Value? {
        return if one.Blocked? then Blocked else Exited;
      }
      if one.value.None? {
        failed := true;
      } else {
        runResults := runResults + [one.value.value];
      }
    }
    return Value(if failed then None else Some(runResults));
  }

  /** slices.SortFunc: in place by insertion for short lists; `long` stands for its algorithm for the others. */
  method Sort(long: Responses -> Responses, rs: Responses) returns (sorted: Responses)
    ensures sorted == SortFunc(long, rs)
  {
    if |rs| > MAX_INSERTION {
      return long(rs);
    }
    var data := new TestCaseResponse[|rs|](i requires 0 <= i < |rs| => rs[i]);
    assert data[..] == rs;
    InsertionSortInPlace(data);
    return data[..];
  }

  /**
   * GenerateTestCases; None where the call fails. Otherwise there is one response a case, paired with it, in the order
   * of Order where all differences fit in int32, as long as the sort of long lists does what it promises.
   */
  method GenerateTestCases(env: Env, service: IsolateService, requests: seq<Request>, cases: seq<Case>,
                           long: Responses -> Responses)
    returns (end: Ended<Option<Responses>>, ghost places: seq<nat>)
    requires |requests| == |cases|
    modifies service
    ensures end.Value? ==> (end.value.Some? <==> AllAnswerable(env, requests))
    ensures end.Value? && end.value.Some? && Promise(long) ==>
              && Paired(env, requests, cases, end.value.value, places)
              && (OrdersFit(cases) ==> Ordered(end.value.value))
  {
    hide Answerable, OutputOf, Promise, SortFunc, AllFit, OrdersFit;
    end := CollectResults(env, service, requests, cases);
    places := [];
    if end.Value? && end.value.Some? {
      var collected := end.value.value;
      var results := Sort(long, collected);
      end := Value(Some(results));
      if Promise(long) {
        assert collected == Expected(env, requests, cases);
        SortedIsOrdered(long, collected);
        places := PairedWhenExpected(env, requests, cases, results);
        OrdersOfCases(cases, collected, collected);
      }
    }
  }
}
