/** Whether a GenerateTestCases call returns its cases in order must not depend on which executions end first. */
module GenerateOrders {
  import opened Generate
  import opened Protocol
  import opened ProtocolAnswers
  import opened ProtocolProofs
  import opened Replies
  import opened Sequences
  import opened Sorting

  // ---- building runs ------------------------------------------------------------------------------

  lemma ReachNext(z: Setup, s: System, t: Step)
    requires Reachable(z, s) && Enabled(z, s, t)
    ensures Reachable(z, Apply(z, s, t))
  {
    hide Enabled, Apply;
    var run :| Run(z, run) && run[|run| - 1] == s;
    var longer := run + [Apply(z, s, t)];
    forall i | 0 <= i < |longer| - 1 ensures Next(z, longer[i], longer[i + 1]) {
      if i < |run| - 1 {
        assert Next(z, run[i], run[i + 1]);
      } else {
        assert Next(z, s, Apply(z, s, t));
      }
    }
    assert Run(z, longer);
  }

  /** Nothing has been received yet. */
  ghost predicate NoneReceived(z: Setup, s: System) {
    Sized(z, s) && s.collected == [] && forall c: nat :: c < |s.clients| ==> s.clients[c].received == 0
  }

  /** Every step but the master's receiving has been taken that can be. */
  ghost predicate OnlyReceiving(z: Setup, s: System) {
    forall t :: Enabled(z, s, t) ==> t.Receive?
  }

  lemma NoneReceivedStays(z: Setup, s: System, t: Step)
    requires NoneReceived(z, s) && Enabled(z, s, t) && !t.Receive?
    ensures NoneReceived(z, Apply(z, s, t))
  {
    hide RepliesTo, Received, MayLaunch;
    SizesStay(z, s, t);
  }

  /** Let the master submit and the workers handle all they can before the master receives anything. */
  lemma {:induction false} HandleAll(z: Setup, s: System) returns (s': System)
    requires Reachable(z, s) && NoneReceived(z, s)
    ensures Reachable(z, s') && NoneReceived(z, s') && OnlyReceiving(z, s')
    decreases TotalRest(z, s.clients)
  {
    hide Reachable, Apply, Enabled, TotalRest, Inv;
    if t :| Enabled(z, s, t) && !t.Receive? {
      InvWhenReachable(z, s);
      StepUsesRest(z, s, t);
      ReachNext(z, s, t);
      NoneReceivedStays(z, s, t);
      s' := HandleAll(z, Apply(z, s, t));
    } else {
      s' := s;
    }
  }

  /** Let everything happen that still can. */
  lemma {:induction false} RunToTheEnd(z: Setup, s: System) returns (s': System)
    requires Reachable(z, s)
    ensures Reachable(z, s') && Quiet(z, s') && s.collected <= s'.collected
    ensures |s'.clients| == |s.clients| == |z.requests|
    decreases if Sized(z, s) then TotalRest(z, s.clients) else 0
  {
    hide Reachable, Apply, Enabled, TotalRest, Inv;
    InvWhenReachable(z, s);
    InvIsSized(z, s);
    if t :| Enabled(z, s, t) {
      StepUsesRest(z, s, t);
      ReachNext(z, s, t);
      CollectedGrows(z, s, t);
      SizesStay(z, s, t);
      s' := RunToTheEnd(z, Apply(z, s, t));
    } else {
      s' := s;
    }
  }

  lemma InvIsSized(z: Setup, s: System)
    requires Inv(z, s)
    ensures Sized(z, s)
  {
  }

  // ---- receiving one case's replies ---------------------------------------------------------------

  /** The call's case c has all its replies waiting. */
  ghost predicate Waiting(z: Setup, s: System, c: nat) {
    && Sized(z, s) && c < |s.clients| && z.requests[c].kind.Collected? && Answerable(z.env, z.requests[c])
    && s.clients[c].phase.Consuming? && s.clients[c].received == 0
    && s.clients[c].published == RepliesTo(z.env, z.requests[c])
  }

  lemma HandledIsWaiting(z: Setup, s: System, call: nat, members: seq<nat>, cases: seq<Case>, i: nat)
    requires Reachable(z, s) && NoneReceived(z, s) && OnlyReceiving(z, s) && z.slots > 0
    requires Generating(z, call, members, cases) && |cases| <= 10 && i < |cases|
    requires Answerable(z.env, z.requests[members[i]])
    ensures Waiting(z, s, members[i])
  {
    hide Reachable, RepliesTo, Answerable, StreamOf, MayLaunch;
    InvWhenReachable(z, s);
    if s.clients[members[i]].phase.Idle? {
      FirstIdleMayLaunch(z, s, call, members, cases, i);
    }
    var c := members[i];
    assert ClientInv(RepliesTo(z.env, z.requests[c]), z.requests[c], s.clients[c]);
    if s.clients[c].place.InQueue? || s.clients[c].place.At? {
      var t := BusyCanStep(z, s, c);
    }
  }

  /** A call of at most ten cases is never held back by the limit. */
  lemma {:induction false} FirstIdleMayLaunch(z: Setup, s: System, call: nat, members: seq<nat>, cases: seq<Case>, i: nat)
    requires Sized(z, s) && Generating(z, call, members, cases) && |cases| <= 10 && i < |cases|
    requires s.clients[members[i]].phase.Idle?
    ensures exists d :: Enabled(z, s, Submit(d))
  {
    if k: nat :| k < i && s.clients[members[k]].phase.Idle? {
      FirstIdleMayLaunch(z, s, call, members, cases, k);
    } else {
      var all := set k: nat | k < |cases| && k != i :: members[k];
      MembersSize(members, |cases|, i);
      assert Live(z, s, call) <= all by {
        forall c | c in Live(z, s, call) ensures c in all { assert members[z.requests[c].kind.index] == c; }
      }
      SubsetSize(Live(z, s, call), all);
      forall d: nat | d < |s.clients| && OfCall(z.requests[d], call) && z.requests[d].kind.index < i
        ensures !s.clients[d].phase.Idle?
      {
        assert members[z.requests[d].kind.index] == d;
      }
      assert Enabled(z, s, Submit(members[i]));
    }
  }

  lemma {:induction false} MembersSize(members: seq<nat>, n: nat, i: nat)
    requires i < n <= |members|
    ensures |set k: nat | k < n && k != i :: members[k]| < n
  {
    var all := set k: nat | k < n && k != i :: members[k];
    if i == n - 1 {
      AtMost(members, n - 1);
      assert all == set k: nat | k < n - 1 :: members[k];
    } else {
      MembersSize(members, n - 1, i);
      assert all == (set k: nat | k < n - 1 && k != i :: members[k]) + {members[n - 1]};
    }
  }

  lemma {:induction false} AtMost(members: seq<nat>, n: nat)
    requires n <= |members|
    ensures |set k: nat | k < n :: members[k]| <= n
  {
    if n > 0 {
      AtMost(members, n - 1);
      assert (set k: nat | k < n :: members[k]) == (set k: nat | k < n - 1 :: members[k]) + {members[n - 1]};
    }
  }

  /** Receiving them makes it the next that is collected, and changes no other call. */
  lemma ReceiveWaiting(z: Setup, s: System, c: nat) returns (s': System)
    requires Reachable(z, s) && Waiting(z, s, c)
    ensures Reachable(z, s') && Sized(z, s')
    ensures s'.collected == s.collected + [CaseOutput(c, OutputOf(z.env, z.requests[c]))]
    ensures forall d: nat :: d < |s.clients| && d != c ==> s'.clients[d] == s.clients[d]
  {
    hide Reachable, RepliesTo, Answerable, Received;
    RepliesShape(z.env, z.requests[c]);
    var replies := RepliesTo(z.env, z.requests[c]);
    assert Enabled(z, s, Receive(c));
    s' := Apply(z, s, Receive(c));
    ReachNext(z, s, Receive(c));
    if |replies| == 2 {
      assert Enabled(z, s', Receive(c));
      ReachNext(z, s', Receive(c));
      s' := Apply(z, s', Receive(c));
    }
  }

  // ---- an unlucky run -----------------------------------------------------------------------------

  /** In some run the case `small` is collected first and the case `large` second. */
  lemma TwoFirst(z: Setup, call: nat, members: seq<nat>, cases: seq<Case>, small: nat, large: nat) returns (s: System)
    requires z.slots > 0 && Generating(z, call, members, cases) && |cases| <= 10
    requires small < |cases| && large < |cases| && small != large
    requires AllAnswerable(z.env, CallRequests(z, members))
    ensures Reachable(z, s) && Quiet(z, s) && |s.clients| == |z.requests|
    ensures |s.collected| >= 2 && s.collected[0].client == members[small] && s.collected[1].client == members[large]
  {
    hide Reachable, Quiet, Answerable, OutputOf, OnlyReceiving;
    var (a, b) := (members[small], members[large]);
    assert Answerable(z.env, CallRequests(z, members)[small]) && Answerable(z.env, CallRequests(z, members)[large]);
    StartIsReachable(z);
    s := HandleAll(z, Start(z));
    HandledIsWaiting(z, s, call, members, cases, small);
    HandledIsWaiting(z, s, call, members, cases, large);
    var s1 := ReceiveWaiting(z, s, a);
    assert Waiting(z, s1, b);
    var s2 := ReceiveWaiting(z, s1, b);
    s := RunToTheEnd(z, s2);
    assert s.collected[0] == s2.collected[0] && s.collected[1] == s2.collected[1];
  }

  lemma StartIsReachable(z: Setup)
    ensures Reachable(z, Start(z)) && NoneReceived(z, Start(z))
  {
    assert Run(z, [Start(z)]);
  }

  lemma {:induction false} FilterStartsWith<T(!new)>(p: T -> bool, s: seq<T>)
    requires |s| >= 2 && p(s[0]) && p(s[1])
    ensures |Filter(p, s)| >= 2 && Filter(p, s)[0] == s[0] && Filter(p, s)[1] == s[1]
  {
    if |s| == 2 {
      assert s[..1][..0] == [];
      assert Filter(p, s[..1]) == [s[0]];
    } else {
      FilterStartsWith(p, s[..|s| - 1]);
    }
  }

  /** What the call returns where a run has ended; `long` sorts lists that are too long for an insertion sort. */
  function Returned(z: Setup, s: System, call: nat, cases: seq<Case>, long: Responses -> Responses): Responses
    requires InCases(z, Gathered(z, s, call), cases)
  {
    SortFunc(long, ResponsesOf(z, Gathered(z, s, call), cases))
  }

  /** In every run the call returns its cases in order. */
  ghost predicate AlwaysOrdered(z: Setup, call: nat, cases: seq<Case>, long: Responses -> Responses) {
    forall s :: Reachable(z, s) && Quiet(z, s) && InCases(z, Gathered(z, s, call), cases) ==>
      Ordered(Returned(z, s, call, cases, long))
  }

  /** So few responses are sorted by insertion. */
  lemma FewAreInserted(z: Setup, s: System, call: nat, members: seq<nat>, cases: seq<Case>,
                       long: Responses -> Responses)
    requires Reachable(z, s) && Quiet(z, s) && z.slots > 0 && Generating(z, call, members, cases) && |cases| <= 10
    requires AllAnswerable(z.env, CallRequests(z, members))
    ensures InCases(z, Gathered(z, s, call), cases)
    ensures multiset(ResponsesOf(z, Gathered(z, s, call), cases)) ==
            multiset(Expected(z.env, CallRequests(z, members), cases))
    ensures Returned(z, s, call, cases, long) == InsertionSort(ResponsesOf(z, Gathered(z, s, call), cases))
  {
    hide Reachable, Quiet, Answerable, Gathered, InsertionSort, OutputOf;
    GenerateFailsIff(z, s, call, members, cases);
    GatheredIsExpected(z, s, call, members, cases);
    var rs := ResponsesOf(z, Gathered(z, s, call), cases);
    var expected := Expected(z.env, CallRequests(z, members), cases);
    assert |multiset(rs)| == |multiset(expected)|;
  }

  lemma UnorderedInThisRun(z: Setup, s: System, call: nat, members: seq<nat>, cases: seq<Case>, small: nat, large: nat,
                           long: Responses -> Responses)
    requires Reachable(z, s) && Quiet(z, s) && z.slots > 0 && Generating(z, call, members, cases) && |cases| <= 10
    requires AllAnswerable(z.env, CallRequests(z, members))
    requires small < |cases| && large < |cases| && cases[large].order - cases[small].order >= 0x8000_0000
    requires |s.collected| >= 2 && s.collected[0].client == members[small] && s.collected[1].client == members[large]
    ensures InCases(z, Gathered(z, s, call), cases) && !Ordered(Returned(z, s, call, cases, long))
  {
    FewAreInserted(z, s, call, members, cases, long);
    hide Reachable, Quiet, AllAnswerable, Gathered, InsertionSort, Returned;
    GatheredStartsWith(z, s, call, members, cases, small, large);
    var rs := ResponsesOf(z, Gathered(z, s, call), cases);
    assert rs[0].order == cases[small].order && rs[1].order == cases[large].order;
    hide Generating, ResponsesOf;
    var i, j := ArrivalInverts(rs);
  }

  lemma SomeRunIsUnordered(z: Setup, call: nat, members: seq<nat>, cases: seq<Case>, long: Responses -> Responses)
    requires z.slots > 0 && Generating(z, call, members, cases) && |cases| <= 10
    requires AllAnswerable(z.env, CallRequests(z, members)) && !OrdersFit(cases)
    ensures !AlwaysOrdered(z, call, cases, long)
  {
    hide Reachable, Quiet, AllAnswerable, Gathered, Returned, Generating;
    var c, d :| 0 <= c < |cases| && 0 <= d < |cases|
                && !(-0x8000_0000 <= cases[c].order - cases[d].order < 0x8000_0000);
    var (small, large) := if cases[c].order < cases[d].order then (c, d) else (d, c);
    var s := TwoFirst(z, call, members, cases, small, large);
    UnorderedInThisRun(z, s, call, members, cases, small, large, long);
  }

  lemma GatheredStartsWith(z: Setup, s: System, call: nat, members: seq<nat>, cases: seq<Case>, small: nat, large: nat)
    requires Generating(z, call, members, cases) && small < |cases| && large < |cases|
    requires |s.collected| >= 2 && s.collected[0].client == members[small] && s.collected[1].client == members[large]
    ensures |Gathered(z, s, call)| >= 2
    ensures Gathered(z, s, call)[0] == s.collected[0] && Gathered(z, s, call)[1] == s.collected[1]
  {
    FilterStartsWith((e: CaseOutput) => e.client < |z.requests| && OfCall(z.requests[e.client], call), s.collected);
  }

  /**
   * A call of at most ten cases returns them in order in every run of the system, if and only if the differences of
   * all pairs of orders fit in int32.
   */
  lemma AlwaysOrderedIff(z: Setup, call: nat, members: seq<nat>, cases: seq<Case>, long: Responses -> Responses)
    requires z.slots > 0 && Generating(z, call, members, cases) && |cases| <= 10
    requires AllAnswerable(z.env, CallRequests(z, members))
    ensures AlwaysOrdered(z, call, cases, long) <==> OrdersFit(cases)
  {
    hide Reachable, Quiet, Answerable, Gathered, Generating, OutputOf, Returned;
    if OrdersFit(cases) {
      forall s | Reachable(z, s) && Quiet(z, s) && InCases(z, Gathered(z, s, call), cases)
        ensures Ordered(Returned(z, s, call, cases, long))
      {
        OrderedInThisRun(z, s, call, members, cases, long);
      }
    } else {
      SomeRunIsUnordered(z, call, members, cases, long);
    }
  }

  lemma OrderedInThisRun(z: Setup, s: System, call: nat, members: seq<nat>, cases: seq<Case>,
                         long: Responses -> Responses)
    requires Reachable(z, s) && Quiet(z, s) && z.slots > 0 && Generating(z, call, members, cases) && |cases| <= 10
    requires AllAnswerable(z.env, CallRequests(z, members)) && OrdersFit(cases)
    ensures InCases(z, Gathered(z, s, call), cases) && Ordered(Returned(z, s, call, cases, long))
  {
    hide Reachable, Quiet, Answerable, Gathered, InsertionSort, OutputOf, Fit, Returned;
    FewAreInserted(z, s, call, members, cases, long);
    var rs := ResponsesOf(z, Gathered(z, s, call), cases);
    OrdersOfCases(cases, Expected(z.env, CallRequests(z, members), cases), rs);
    InsertionSortIsOrdered(rs);
  }
}
