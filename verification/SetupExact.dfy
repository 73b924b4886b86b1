/** Which configurations are always listed exactly, whatever fails on the way (internal/setup/setup.go). */
module SetupExact {
  import opened Models
  import opened Setup
  import opened SetupIndex
  import opened SetupRuns

  /** Nothing has to be built, and the run file is among the files. */
  predicate SelfContained(c: CompareConfig) {
    c.buildScript == "" && Names(c.files, c.runName)
  }

  /** In every run that does not end the process, the list is exactly the compares whose set-up completed. */
  ghost predicate AlwaysExact(cs: seq<CompareConfig>) {
    forall s: State :: s.Up? && Reachable(cs, s) && AllEnded(s) && |s.pcs| == |cs| ==>
      Listed(cs, s.tree) == CompletedOnes(cs, s.pcs)
  }

  // ---- a run in which builds leave nothing and removals fail --------------------------------------

  function Worst(pc: Pc): Event {
    match pc
    case MadeDir => BuildsNothing
    case GaveBoxBack => RemovesPart(map[])
    case _ => Fine
  }

  predicate PastBuild(pc: Pc) { pc.Built? || pc.HasRunFile? || pc.WroteScript? || pc.Completed? }

  ghost predicate WorstSoFar(c: CompareConfig, pc: Pc) {
    (Configured(c) ==> !pc.Skipped?) && (c.buildScript != "" ==> !PastBuild(pc))
  }

  ghost predicate WorstInv(cs: seq<CompareConfig>, s: State) {
    s.Up? && |s.pcs| == |cs| && forall i :: 0 <= i < |cs| ==> WorstSoFar(cs[i], s.pcs[i])
  }

  lemma WorstStep(c: CompareConfig, pc: Pc, dir: Option<Directory>)
    requires GoroutineInv(c, pc, dir) && WorstSoFar(c, pc) && !Ended(pc)
    ensures Step(c, pc, dir, Worst(pc)).Effect? && WorstSoFar(c, Step(c, pc, dir, Worst(pc)).pc)
  {
    hide Installed;
  }

  lemma ReachNext(cs: seq<CompareConfig>, s: State, m: Move)
    requires Reachable(cs, s) && Enabled(cs, s, m)
    ensures Reachable(cs, Apply(cs, s, m))
  {
    hide Enabled, Apply, Start;
    var run :| Run(cs, run) && run[|run| - 1] == s;
    var longer := run + [Apply(cs, s, m)];
    forall i | 0 <= i < |longer| - 1 ensures Next(cs, longer[i], longer[i + 1]) {
      if i < |run| - 1 {
        assert Next(cs, run[i], run[i + 1]);
      } else {
        assert Next(cs, s, Apply(cs, s, m));
      }
    }
    assert Run(cs, longer);
  }

  lemma {:induction false} RunWorst(cs: seq<CompareConfig>, s: State) returns (s': State)
    requires DistinctIds(cs) && Reachable(cs, s) && WorstInv(cs, s)
    ensures Reachable(cs, s') && WorstInv(cs, s') && AllEnded(s')
    decreases TotalRest(cs, s.pcs)
  {
    hide Reachable, Step, TotalRest, GoroutineInv, Ended, Worst, WorstSoFar;
    if i :| 0 <= i < |cs| && !Ended(s.pcs[i]) {
      var m := Move.Move(i, Worst(s.pcs[i]));
      NoDeadlock(cs, s, m);
      InvWhenReachable(cs, s);
      WorstStep(cs[i], s.pcs[i], DirOf(s.tree, cs[i].id));
      StepUsesRest(cs, s, m);
      ReachNext(cs, s, m);
      s' := RunWorst(cs, Apply(cs, s, m));
    } else {
      s' := s;
    }
  }

  /** Every configured compare that is not self-contained can have its directory left behind. */
  lemma SomeRunLeavesBehind(cs: seq<CompareConfig>) returns (s: State)
    requires DistinctIds(cs)
    ensures s.Up? && Reachable(cs, s) && AllEnded(s) && |s.pcs| == |cs|
    ensures forall i :: 0 <= i < |cs| && Configured(cs[i]) && !SelfContained(cs[i]) ==> s.pcs[i].LeftBehind?
  {
    hide Reachable, Installed;
    assert Reachable(cs, Start(cs)) by { StartIsReachable(cs); }
    s := RunWorst(cs, Start(cs));
    InvWhenReachable(cs, s);
    forall i | 0 <= i < |cs| && Configured(cs[i]) && !SelfContained(cs[i]) ensures s.pcs[i].LeftBehind? {
      assert GoroutineInv(cs[i], s.pcs[i], DirOf(s.tree, cs[i].id)) && WorstSoFar(cs[i], s.pcs[i]);
    }
  }

  lemma StartIsReachable(cs: seq<CompareConfig>)
    ensures Reachable(cs, Start(cs))
  {
    assert Run(cs, [Start(cs)]);
  }

  /**
   * The list is exact in every run if and only if no configured compare has a build script and each has its run file
   * among its files.
   */
  lemma AlwaysExactIff(cs: seq<CompareConfig>)
    requires DistinctIds(cs)
    ensures AlwaysExact(cs) <==> forall i :: 0 <= i < |cs| && Configured(cs[i]) ==> SelfContained(cs[i])
  {
    hide Reachable, AllEnded, Configured, SelfContained, Listed, CompletedOnes;
    if forall i :: 0 <= i < |cs| && Configured(cs[i]) ==> SelfContained(cs[i]) {
      forall s: State | s.Up? && Reachable(cs, s) && AllEnded(s) && |s.pcs| == |cs|
        ensures Listed(cs, s.tree) == CompletedOnes(cs, s.pcs)
      {
        ListIsExactIff(cs, s);
        forall i | 0 <= i < |cs| ensures !s.pcs[i].LeftBehind? { SelfContainedIsNotLeft(cs, s, i); }
      }
    } else {
      var i :| 0 <= i < |cs| && Configured(cs[i]) && !SelfContained(cs[i]);
      var s := SomeRunLeavesBehind(cs);
      ListIsExactIff(cs, s);
    }
  }

  lemma SelfContainedIsNotLeft(cs: seq<CompareConfig>, s: State, i: nat)
    requires DistinctIds(cs) && Reachable(cs, s) && AllEnded(s) && |s.pcs| == |cs| && i < |cs|
    requires Configured(cs[i]) ==> SelfContained(cs[i])
    ensures !s.pcs[i].LeftBehind?
  {
    hide Reachable, Installed;
    InvWhenReachable(cs, s);
    assert GoroutineInv(cs[i], s.pcs[i], DirOf(s.tree, cs[i].id));
  }
}
