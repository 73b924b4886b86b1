/** GenerateTestCases: what it collects, and what it returns (cmd/master/master.go). */
module Generate {
  import opened Floats
  import opened GoInt
  import opened Json
  import opened JsonStrings
  import opened Models
  import opened Outcomes
  import opened Replies
  import opened Protocol
  import opened ProtocolProofs
  import opened ProtocolAnswers
  import opened Sandbox
  import opened Sequences
  import opened Sorting

  datatype Case = Case(id: string, order: int32, input: string)

  function ToResponse(c: Case, output: string): TestCaseResponse {
    TestCaseResponse(c.id, c.order, c.input, output)
  }

  /** The output that the master reads in the answer to a case's own execution. */
  function OutputOf(env: Env, q: Request): string
    requires Answerable(env, q)
  {
    RepliesShape(env, q);
    var replies := RepliesTo(env, q);
    Received(replies[|replies| - 1].result).output
  }

  /**
   * It is what its program printed, with the bytes replaced that are no characters; or a note, where that is over
   * 16 MiB as JSON; or nothing, where the run is an error.
   */
  lemma OutputsAreTold(env: Env, q: Request, status: Status, printed: string, wallTime: Float32, memory: int32)
    requires Answerable(env, q) && q.program.Some?
    ensures RunEnds(env, q.program.value, status, printed, wallTime, memory) ==>
              OutputOf(env, q) ==
              if Encode(RunResult(q.id, status, printed, wallTime, memory, 0, "")).Size() <= 16 * 1024 * 1024
              then Sanitized(printed) else "[result too large to return]"
    ensures (forall status, printed, wallTime, memory ::
               !RunEnds(env, q.program.value, status, printed, wallTime, memory)) ==>
              OutputOf(env, q) == ""
  {
    hide RepliesTo, Answerable, ReadBack, RunEnds, MarshalRun;
    RepliesShape(env, q);
    OthersAreAnswered(env, q);
    AnswerableIff(env, q);
    TooLargeIsAscii();
    AsciiIsReadBack("[result too large to return]");
    AsciiIsReadBack("");
    if RunEnds(env, q.program.value, status, printed, wallTime, memory) {
      RunIsAnswered(env, q, q.program.value, status, printed, wallTime, memory);
      ResultIsEncoded(RunResult(q.id, status, printed, wallTime, memory, 0, ""));
    }
  }

  /** The case's output is what its program printed, all of it, if and only if that is valid UTF-8. */
  lemma OutputIsOwnIff(env: Env, q: Request, status: Status, printed: string, wallTime: Float32, memory: int32)
    requires Answerable(env, q) && q.program.Some?
    requires RunEnds(env, q.program.value, status, printed, wallTime, memory)
    requires Encode(RunResult(q.id, status, printed, wallTime, memory, 0, "")).Size() <= 16 * 1024 * 1024
    ensures OutputOf(env, q) == printed <==> ValidUtf8(printed)
  {
    hide OutputOf, Answerable, RunEnds, MarshalRun, ValidUtf8;
    OutputsAreTold(env, q, status, printed, wallTime, memory);
    assert Sanitized(printed) == printed <==> ValidUtf8(printed) by { var r := ReadBack(printed); }
  }

  // ---- collecting ---------------------------------------------------------------------------------

  /** These requests, and no others, are those of one GenerateTestCases call, one a case. */
  ghost predicate Generating(z: Setup, call: nat, members: seq<nat>, cases: seq<Case>) {
    && |members| == |cases|
    && (forall i :: 0 <= i < |cases| ==>
          && members[i] < |z.requests|
          && var q := z.requests[members[i]];
             && q.kind == Collected(call, i) && q.decodable
             && (q.program.Some? ==> q.program.value.input == cases[i].input))
    && (forall c: nat :: c < |z.requests| && OfCall(z.requests[c], call) ==>
          z.requests[c].kind.index < |cases| && members[z.requests[c].kind.index] == c)
  }

  function CallRequests(z: Setup, members: seq<nat>): (r: seq<Request>)
    requires forall i :: 0 <= i < |members| ==> members[i] < |z.requests|
  {
    seq(|members|, i requires 0 <= i < |members| => z.requests[members[i]])
  }

  /** What the call has collected so far, in the order in which its executions ended. */
  function Gathered(z: Setup, s: System, call: nat): (r: seq<CaseOutput>)
  {
    Filter((e: CaseOutput) => e.client < |z.requests| && OfCall(z.requests[e.client], call), s.collected)
  }

  predicate InCases(z: Setup, entries: seq<CaseOutput>, cases: seq<Case>) {
    forall i :: 0 <= i < |entries| ==>
      && entries[i].client < |z.requests| && z.requests[entries[i].client].kind.Collected?
      && z.requests[entries[i].client].kind.index < |cases|
  }

  /** runResults before sorting. */
  function ResponsesOf(z: Setup, entries: seq<CaseOutput>, cases: seq<Case>): (r: Responses)
    requires InCases(z, entries, cases)
    ensures |r| == |entries|
  {
    seq(|entries|, i requires 0 <= i < |entries| =>
      ToResponse(cases[z.requests[entries[i].client].kind.index], entries[i].output))
  }

  ghost predicate AllAnswerable(env: Env, requests: seq<Request>) {
    forall c :: 0 <= c < |requests| ==> Answerable(env, requests[c])
  }

  /** Each case with the output of its own execution, in the order of the request. */
  function Expected(env: Env, requests: seq<Request>, cases: seq<Case>): (r: Responses)
    requires |cases| == |requests| && AllAnswerable(env, requests)
    ensures |r| == |cases|
  {
    seq(|cases|, c requires 0 <= c < |cases| => ToResponse(cases[c], OutputOf(env, requests[c])))
  }

  /** The call fails iff some reply could not be decoded. */
  ghost predicate Fails(z: Setup, s: System, call: nat)
    requires |s.clients| == |z.requests|
  {
    exists c: nat :: c < |z.requests| && OfCall(z.requests[c], call) && s.clients[c].phase.Broken?
  }

  lemma GenerateFailsIff(z: Setup, s: System, call: nat, members: seq<nat>, cases: seq<Case>)
    requires Reachable(z, s) && Quiet(z, s) && z.slots > 0 && Generating(z, call, members, cases)
    ensures |s.clients| == |z.requests|
    ensures Fails(z, s, call) <==> !AllAnswerable(z.env, CallRequests(z, members))
  {
    hide Reachable, Quiet, Answerable, Settled;
    InvWhenReachable(z, s);
    NothingLost(z, s);
    var requests := CallRequests(z, members);
    forall i | 0 <= i < |cases|
      ensures s.clients[members[i]].phase.Broken? <==> !Answerable(z.env, requests[i])
    {
      GenerateCallIsAnswered(z, s, call, members[i]);
    }
    if Fails(z, s, call) {
      var c: nat :| c < |z.requests| && OfCall(z.requests[c], call) && s.clients[c].phase.Broken?;
      assert !Answerable(z.env, requests[z.requests[c].kind.index]);
    }
  }

  /** A collected output is that of the call's own execution. */
  lemma EntryHasOwnOutput(z: Setup, s: System, e: CaseOutput)
    requires Sized(z, s) && EntryOf(z, s, e) && Settled(z.env, z.requests[e.client], s.clients[e.client])
    ensures Answerable(z.env, z.requests[e.client])
    ensures e.output == OutputOf(z.env, z.requests[e.client])
  {
    hide RepliesTo, Answerable, Received;
    RepliesShape(z.env, z.requests[e.client]);
  }

  lemma GatheredIsInCases(z: Setup, s: System, call: nat, members: seq<nat>, cases: seq<Case>)
    requires Generating(z, call, members, cases)
    ensures InCases(z, Gathered(z, s, call), cases)
    ensures forall e :: e in Gathered(z, s, call) ==> e in s.collected && OfCall(z.requests[e.client], call)
  {
    var entries := Gathered(z, s, call);
    forall i | 0 <= i < |entries|
      ensures entries[i].client < |z.requests| && OfCall(z.requests[entries[i].client], call)
    {
      assert entries[i] in entries;
    }
  }

  lemma DoneIsGathered(z: Setup, s: System, call: nat, members: seq<nat>, cases: seq<Case>, i: nat) returns (l: nat)
    requires Generating(z, call, members, cases) && CollectedInv(z, s) && i < |cases|
    requires |s.clients| == |z.requests| && s.clients[members[i]].phase.Done?
    ensures l < |Gathered(z, s, call)| && Gathered(z, s, call)[l].client == members[i]
  {
    hide EntryOf;
    var entries := Gathered(z, s, call);
    var p := (e: CaseOutput) => e.client < |z.requests| && OfCall(z.requests[e.client], call);
    var k :| 0 <= k < |s.collected| && s.collected[k].client == members[i];
    assert s.collected[k] in s.collected && p(s.collected[k]);
    assert s.collected[k] in entries;
    l :| l < |entries| && entries[l] == s.collected[k];
  }

  lemma GatheredClientsDiffer(z: Setup, s: System, call: nat)
    requires CollectedInv(z, s)
    ensures forall i, j :: 0 <= i < j < |Gathered(z, s, call)| ==>
                             Gathered(z, s, call)[i].client != Gathered(z, s, call)[j].client
  {
    hide EntryOf;
    FilterKeepsDistinct((e: CaseOutput) => e.client,
                        (e: CaseOutput) => e.client < |z.requests| && OfCall(z.requests[e.client], call), s.collected);
  }

  /** The cases of the call that have been collected, by their places in it; each once. */
  lemma GatheredOnce(z: Setup, s: System, call: nat, members: seq<nat>, cases: seq<Case>) returns (order: seq<nat>)
    requires Generating(z, call, members, cases) && CollectedInv(z, s)
    requires forall i :: 0 <= i < |cases| ==> |s.clients| == |z.requests| && s.clients[members[i]].phase.Done?
    ensures |order| == |Gathered(z, s, call)| && NoDups(order)
    ensures forall i: nat :: i in order <==> i < |cases|
    ensures forall i :: 0 <= i < |order| ==> order[i] < |cases| && Gathered(z, s, call)[i].client == members[order[i]]
  {
    hide CollectedInv, Gathered;
    GatheredIsInCases(z, s, call, members, cases);
    GatheredClientsDiffer(z, s, call);
    var entries := Gathered(z, s, call);
    order := seq(|entries|, i requires 0 <= i < |entries| => z.requests[entries[i].client].kind.index);
    forall i | 0 <= i < |order| ensures entries[i].client == members[order[i]] {
      assert entries[i] in entries;
    }
    forall i: nat | i < |cases| ensures i in order {
      var m := members[i];
      var l := DoneIsGathered(z, s, call, members, cases, i);
      assert order[l] == i;
    }
  }

  /** What the call has collected is a permutation of the expected responses. */
  lemma GatheredIsExpected(z: Setup, s: System, call: nat, members: seq<nat>, cases: seq<Case>)
    requires Reachable(z, s) && Quiet(z, s) && z.slots > 0 && Generating(z, call, members, cases)
    requires |s.clients| == |z.requests| && !Fails(z, s, call)
    ensures AllAnswerable(z.env, CallRequests(z, members)) && InCases(z, Gathered(z, s, call), cases)
    ensures multiset(ResponsesOf(z, Gathered(z, s, call), cases)) ==
            multiset(Expected(z.env, CallRequests(z, members), cases))
  {
    hide Reachable, Quiet, Answerable, Settled, EntryOf, ClientsInv, PlacesInv, Gathered, OutputOf;
    InvWhenReachable(z, s);
    GenerateFailsIff(z, s, call, members, cases);
    GatheredIsInCases(z, s, call, members, cases);
    var requests, entries := CallRequests(z, members), Gathered(z, s, call);
    forall i | 0 <= i < |cases| ensures s.clients[members[i]].phase.Done? {
      assert Answerable(z.env, requests[i]);
      GenerateCallIsAnswered(z, s, call, members[i]);
    }
    var order := GatheredOnce(z, s, call, members, cases);
    forall i | 0 <= i < |order| ensures entries[i].output == OutputOf(z.env, requests[order[i]]) {
      assert entries[i] in entries && entries[i] in s.collected;
      GenerateCallIsAnswered(z, s, call, members[order[i]]);
      EntryHasOwnOutput(z, s, entries[i]);
    }
    VisitedInAnyOrder(order, ResponsesOf(z, entries, cases), Expected(z.env, requests, cases));
  }

  /** The response is that of the case: its own id, order and input, and the output read from the answer to q. */
  predicate Pairs(env: Env, q: Request, c: Case, r: TestCaseResponse)
    requires Answerable(env, q)
  {
    r.id == c.id && r.order == c.order && r.input == c.input && r.output == OutputOf(env, q)
  }

  /** Each case has its place among the responses, and no two have the same. */
  ghost predicate Paired(env: Env, requests: seq<Request>, cases: seq<Case>, results: Responses, places: seq<nat>)
    requires |cases| == |requests| && AllAnswerable(env, requests)
  {
    && |places| == |results| == |cases| && NoDups(places)
    && forall i :: 0 <= i < |cases| ==> places[i] < |results| && Pairs(env, requests[i], cases[i], results[places[i]])
  }

  lemma PairedWhenExpected(env: Env, requests: seq<Request>, cases: seq<Case>, results: Responses)
    returns (places: seq<nat>)
    requires |cases| == |requests| && AllAnswerable(env, requests)
    requires multiset(results) == multiset(Expected(env, requests, cases))
    ensures Paired(env, requests, cases, results, places)
  {
    hide Answerable, OutputOf;
    places := PlacesInPermutation(Expected(env, requests, cases), results);
  }

  /**
   * However the executions interleave, and whatever other calls compete for the workers, a GenerateTestCases call that
   * does not fail collects one entry a case, with the case's own id, order and input and the output that its own
   * execution is answered with.
   */
  lemma EveryCaseIsReturned(z: Setup, s: System, call: nat, members: seq<nat>, cases: seq<Case>)
    returns (places: seq<nat>)
    requires Reachable(z, s) && Quiet(z, s) && z.slots > 0 && Generating(z, call, members, cases)
    requires |s.clients| == |z.requests| && !Fails(z, s, call)
    ensures AllAnswerable(z.env, CallRequests(z, members)) && InCases(z, Gathered(z, s, call), cases)
    ensures Paired(z.env, CallRequests(z, members), cases, ResponsesOf(z, Gathered(z, s, call), cases), places)
  {
    hide Reachable, Quiet, Answerable, OutputOf, Gathered;
    GatheredIsExpected(z, s, call, members, cases);
    places := PairedWhenExpected(z.env, CallRequests(z, members), cases, ResponsesOf(z, Gathered(z, s, call), cases));
  }

  // ---- ordering -----------------------------------------------------------------------------------

  ghost predicate OrdersFit(cases: seq<Case>) {
    forall c, d :: 0 <= c < |cases| && 0 <= d < |cases| ==>
      -0x8000_0000 <= cases[c].order - cases[d].order < 0x8000_0000
  }

  lemma OrdersOfCases(cases: seq<Case>, expected: Responses, rs: Responses)
    requires |expected| == |cases| && forall c :: 0 <= c < |cases| ==> expected[c].order == cases[c].order
    requires multiset(rs) == multiset(expected)
    ensures AllFit(rs) <==> OrdersFit(cases)
  {
    assert forall a :: a in rs <==> a in expected by {
      forall a ensures a in rs <==> a in expected { assert a in multiset(rs) <==> a in multiset(expected); }
    }
    if AllFit(rs) {
      forall c, d | 0 <= c < |cases| && 0 <= d < |cases| ensures Fit(expected[c], expected[d]) {
        assert expected[c] in expected && expected[d] in expected;
      }
      assert forall c, d :: 0 <= c < |cases| && 0 <= d < |cases| ==>
        Fit(expected[c], expected[d]) && cases[c].order - cases[d].order == expected[c].order - expected[d].order;
    } else {
      var a, b :| a in rs && b in rs && !Fit(a, b);
      var c :| 0 <= c < |expected| && expected[c] == a;
      var d :| 0 <= d < |expected| && expected[d] == b;
      assert cases[c].order - cases[d].order == a.order - b.order;
    }
  }

  /**
   * The whole call: one response a case, in its own place, with the case's own id, order and input and the output read
   * from the answer to its own execution; and ordered by Order where the differences of all pairs of cases fit in
   * int32.
   */
  lemma GenerateTestCases(z: Setup, s: System, call: nat, members: seq<nat>, cases: seq<Case>,
                          long: Responses -> Responses) returns (places: seq<nat>)
    requires Reachable(z, s) && Quiet(z, s) && z.slots > 0 && Generating(z, call, members, cases) && Promise(long)
    requires |s.clients| == |z.requests| && !Fails(z, s, call)
    ensures AllAnswerable(z.env, CallRequests(z, members)) && InCases(z, Gathered(z, s, call), cases)
    ensures var results := SortFunc(long, ResponsesOf(z, Gathered(z, s, call), cases));
            && Paired(z.env, CallRequests(z, members), cases, results, places)
            && (OrdersFit(cases) ==> Ordered(results))
  {
    hide Reachable, Quiet, Answerable, OutputOf, Promise, Gathered, SortFunc, Fit;
    GatheredIsExpected(z, s, call, members, cases);
    var rs, expected := ResponsesOf(z, Gathered(z, s, call), cases), Expected(z.env, CallRequests(z, members), cases);
    SortedIsOrdered(long, rs);
    OrdersOfCases(cases, expected, rs);
    places := PairedWhenExpected(z.env, CallRequests(z, members), cases, SortFunc(long, rs));
  }
}
