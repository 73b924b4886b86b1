/** How many test-case goroutines are alive over all groups of all jobs, against the number of grade boxes. */
module EngineFanOut {
  import opened Models
  import opened Engine
  import opened EngineShape
  import opened EngineProgress
  import opened EngineTheorems
  import opened Sequences

  // ---- the demand of a request --------------------------------------------------------------------

  /** The largest sum of at most k of the weights. */
  function BestOf(k: nat, ws: seq<nat>): nat {
    if k == 0 || ws == [] then 0
    else
      var n := |ws| - 1;
      var without, with := BestOf(k, ws[..n]), BestOf(k - 1, ws[..n]) + ws[n];
      if without >= with then without else with
  }

  /** How many cases a group can have alive at a time. */
  function Weight(cfg: Config, group: TestCaseGroup): nat {
    if |group.testCases| <= cfg.GradePoolSize() then |group.testCases| else cfg.GradePoolSize()
  }

  function Weights(cfg: Config, j: nat): (r: seq<nat>)
    requires j < |cfg.jobs|
    ensures |r| == |cfg.jobs[j].groups|
  {
    seq(|cfg.jobs[j].groups|, g requires 0 <= g < |cfg.jobs[j].groups| => Weight(cfg, cfg.jobs[j].groups[g]))
  }

  /** How many cases the first n jobs can have alive at a time: in each job, those of the four greatest groups. */
  function Demand(cfg: Config, n: nat): nat
    requires n <= |cfg.jobs|
  {
    if n == 0 then 0
    else Demand(cfg, n - 1)
         + if cfg.jobs[n - 1].compare.Some? then BestOf(GRADE_GROUP_CONCURRENCY, Weights(cfg, n - 1)) else 0
  }

  /** The live cases of the first n groups of job j. */
  function LiveInGroups(cfg: Config, s: State, j: nat, n: nat): nat
    requires s.Up? && j < |cfg.jobs| && n <= |cfg.jobs[j].groups|
  {
    if n == 0 then 0 else LiveInGroups(cfg, s, j, n - 1) + |LiveCases(cfg, s, j, n - 1)|
  }

  /** The live cases of the first n jobs. */
  function LiveInJobs(cfg: Config, s: State, n: nat): nat
    requires s.Up? && n <= |cfg.jobs|
  {
    if n == 0 then 0 else LiveInJobs(cfg, s, n - 1) + LiveInGroups(cfg, s, n - 1, |cfg.jobs[n - 1].groups|)
  }

  function AllLive(cfg: Config, s: State): nat
    requires s.Up?
  {
    LiveInJobs(cfg, s, |cfg.jobs|)
  }

  // ---- never more than the demand -----------------------------------------------------------------

  function Below(n: nat): (r: set<nat>)
    ensures |r| == n && forall x: nat :: x in r <==> x < n
  {
    if n == 0 then {} else Below(n - 1) + {n - 1}
  }

  lemma LiveCasesFit(cfg: Config, s: State, j: nat, g: nat)
    requires ShapeInv(cfg, s) && s.Up? && ValidGroup(cfg, j, g)
    ensures |LiveCases(cfg, s, j, g)| <= Weight(cfg, cfg.jobs[j].groups[g])
    ensures !GroupAlive(GroupOf(s, j, g)) ==> LiveCases(cfg, s, j, g) == {}
  {
    assert GroupOk(cfg, s, j, g);
    var n := |Tcs(cfg, j, g)|;
    SubsetSize(LiveCases(cfg, s, j, g), Below(n));
    if !GroupAlive(GroupOf(s, j, g)) {
      forall c: nat | c < n ensures !Alive(PcOf(s, Case(j, g, c))) { assert CursorOk(cfg, s, Case(j, g, c)); }
    }
  }

  function AliveBelow(cfg: Config, s: State, j: nat, n: nat): set<nat>
    requires s.Up?
  {
    set g: nat | g < n && GroupAlive(GroupOf(s, j, g))
  }

  lemma BestOneMore(k: nat, ws: seq<nat>)
    requires ws != []
    ensures BestOf(k, ws) >= BestOf(k, ws[..|ws| - 1])
    ensures k > 0 ==> BestOf(k, ws) >= BestOf(k - 1, ws[..|ws| - 1]) + ws[|ws| - 1]
  {
  }

  lemma {:induction false} GroupsFit(cfg: Config, s: State, j: nat, n: nat, k: nat)
    requires ShapeInv(cfg, s) && s.Up? && j < |cfg.jobs| && n <= |cfg.jobs[j].groups|
    requires |AliveBelow(cfg, s, j, n)| <= k
    ensures LiveInGroups(cfg, s, j, n) <= BestOf(k, Weights(cfg, j)[..n])
  {
    hide ShapeInv, LiveCases, Weight, GroupAlive, BestOf;
    if n > 0 {
      BestOneMore(k, Weights(cfg, j)[..n]);
      var ws := Weights(cfg, j)[..n];
      assert ws[..n - 1] == Weights(cfg, j)[..n - 1];
      LiveCasesFit(cfg, s, j, n - 1);
      var alive, before := AliveBelow(cfg, s, j, n), AliveBelow(cfg, s, j, n - 1);
      if GroupAlive(GroupOf(s, j, n - 1)) {
        assert alive == before + {n - 1};
        GroupsFit(cfg, s, j, n - 1, k - 1);
      } else {
        assert alive == before;
        GroupsFit(cfg, s, j, n - 1, k);
      }
    }
  }

  lemma {:induction false} JobsFit(cfg: Config, s: State, n: nat)
    requires ShapeInv(cfg, s) && s.Up? && n <= |cfg.jobs|
    ensures LiveInJobs(cfg, s, n) <= Demand(cfg, n)
  {
    hide LiveInGroups, BestOf;
    if n > 0 {
      var j := n - 1;
      JobsFit(cfg, s, j);
      assert JobOk(cfg, s, j);
      var groups := |cfg.jobs[j].groups|;
      if cfg.jobs[j].compare.Some? {
        assert AliveBelow(cfg, s, j, groups) == LiveGroups(cfg, s, j);
        GroupsFit(cfg, s, j, groups, GRADE_GROUP_CONCURRENCY);
        assert Weights(cfg, j)[..groups] == Weights(cfg, j);
      } else {
        assert AliveBelow(cfg, s, j, groups) == {} by {
          forall g: nat | g < groups ensures !GroupAlive(GroupOf(s, j, g)) { assert GroupOk(cfg, s, j, g); }
        }
        GroupsFit(cfg, s, j, groups, 0);
        NothingBest(Weights(cfg, j)[..groups]);
      }
    }
  }

  lemma NothingBest(ws: seq<nat>)
    ensures BestOf(0, ws) == 0
  {
  }

  /** No interleaving has more cases alive than the demand of the requests. */
  lemma LiveIsAtMostDemand(cfg: Config, s: State)
    requires Reachable(cfg, s) && s.Up?
    ensures AllLive(cfg, s) <= Demand(cfg, |cfg.jobs|)
  {
    hide Reachable;
    InvWhenReachable(cfg, s);
    JobsFit(cfg, s, |cfg.jobs|);
  }

  // ---- and the demand is reached ------------------------------------------------------------------

  /** Nothing has happened but launches. */
  ghost predicate OnlyLaunched(cfg: Config, s: State) {
    && s.Up?
    && (forall u :: PcOf(s, u).Idle? || PcOf(s, u).Waiting?)
    && (forall j: nat, g: nat :: GroupOf(s, j, g).phase.NotLaunched? || GroupOf(s, j, g).phase.Live?)
  }

  predicate IsLaunch(a: Action) { a.LaunchGroup? || a.LaunchCase? }

  lemma LaunchKeepsLaunched(cfg: Config, s: State, a: Action)
    requires OnlyLaunched(cfg, s) && Enabled(cfg, s, a) && IsLaunch(a)
    ensures OnlyLaunched(cfg, Apply(cfg, s, a))
  {
    hide FirstDuty, LiveGroups, LiveCases;
    var s' := Apply(cfg, s, a);
    match a
    case LaunchGroup(j) =>
      assert s'.pcs == s.pcs;
      forall j2: nat, g2: nat
        ensures GroupOf(s', j2, g2).phase.NotLaunched? || GroupOf(s', j2, g2).phase.Live?
      {
        assert GroupOf(s', j2, g2) == GroupOf(s, j2, g2) || (j2, g2) == (j, JobOf(s, j).next);
      }
      forall u ensures PcOf(s', u) == PcOf(s, u) {}
    case LaunchCase(j, g) =>
      forall j2: nat, g2: nat ensures GroupOf(s', j2, g2).phase == GroupOf(s, j2, g2).phase {}
      var v := Case(j, g, GroupOf(s, j, g).next);
      forall u ensures PcOf(s', u) == if u == v then Waiting(FirstDuty(cfg, v)) else PcOf(s, u) {}
  }

  lemma ReachNext(cfg: Config, s: State, a: Action)
    requires Reachable(cfg, s) && s.Up? && Enabled(cfg, s, a)
    ensures Reachable(cfg, Apply(cfg, s, a))
  {
    hide Enabled, Apply, Initial;
    var run :| Run(cfg, run) && run[|run| - 1] == s;
    var longer := run + [Apply(cfg, s, a)];
    forall i | 0 <= i < |longer| - 1 ensures Next(cfg, longer[i], longer[i + 1]) {
      if i < |run| - 1 {
        assert Next(cfg, run[i], run[i + 1]);
      } else {
        assert Next(cfg, s, Apply(cfg, s, a));
      }
    }
    assert Run(cfg, longer);
  }

  /** Launch whatever can be launched, and do nothing else. */
  lemma {:induction false} LaunchAll(cfg: Config, s: State) returns (s': State)
    requires Reachable(cfg, s) && OnlyLaunched(cfg, s)
    ensures Reachable(cfg, s') && OnlyLaunched(cfg, s')
    ensures forall a :: IsLaunch(a) ==> !Enabled(cfg, s', a)
    decreases if s.Up? then WorkLeft(cfg, s) else 0
  {
    hide Reachable, Apply, Enabled, WorkLeft, ShapeInv;
    if a :| IsLaunch(a) && Enabled(cfg, s, a) {
      InvWhenReachable(cfg, s);
      ReachNext(cfg, s, a);
      LaunchKeepsLaunched(cfg, s, a);
      StepUsesWork(cfg, s, a);
      s' := LaunchAll(cfg, Apply(cfg, s, a));
    } else {
      s' := s;
    }
  }

  /** Then every group of a job of at most four groups has as many cases alive as it ever can. */
  lemma GroupIsFull(cfg: Config, s: State, j: nat, g: nat)
    requires ShapeInv(cfg, s) && OnlyLaunched(cfg, s) && ValidGroup(cfg, j, g)
    requires forall a :: IsLaunch(a) ==> !Enabled(cfg, s, a)
    requires cfg.jobs[j].compare.Some? && |cfg.jobs[j].groups| <= GRADE_GROUP_CONCURRENCY
    ensures |LiveCases(cfg, s, j, g)| == Weight(cfg, cfg.jobs[j].groups[g])
  {
    AllGroupsLive(cfg, s, j);
    assert GroupOk(cfg, s, j, g);
    assert !Enabled(cfg, s, LaunchCase(j, g));
    var next := GroupOf(s, j, g).next;
    assert LiveCases(cfg, s, j, g) == Below(next) by {
      forall c: nat ensures c < |Tcs(cfg, j, g)| && Alive(PcOf(s, Case(j, g, c))) <==> c < next {
        assert CursorOk(cfg, s, Case(j, g, c));
      }
    }
  }

  lemma AllGroupsLive(cfg: Config, s: State, j: nat)
    requires ShapeInv(cfg, s) && OnlyLaunched(cfg, s) && j < |cfg.jobs|
    requires forall a :: IsLaunch(a) ==> !Enabled(cfg, s, a)
    requires cfg.jobs[j].compare.Some? && |cfg.jobs[j].groups| <= GRADE_GROUP_CONCURRENCY
    ensures forall g: nat :: g < |cfg.jobs[j].groups| ==> GroupOf(s, j, g).phase.Live?
  {
    assert JobOk(cfg, s, j);
    assert !Enabled(cfg, s, LaunchGroup(j));
    var next := JobOf(s, j).next;
    forall g: nat | g < |cfg.jobs[j].groups| ensures GroupOf(s, j, g).phase.Live? <==> g < next {
      assert GroupOk(cfg, s, j, g);
    }
    assert LiveGroups(cfg, s, j) == Below(next);
  }

  predicate Small(cfg: Config) {
    forall j :: 0 <= j < |cfg.jobs| ==> |cfg.jobs[j].groups| <= GRADE_GROUP_CONCURRENCY
  }

  lemma {:induction false} BestIsSum(cfg: Config, s: State, j: nat, n: nat, k: nat)
    requires s.Up? && j < |cfg.jobs| && n <= |cfg.jobs[j].groups| && n <= k
    requires forall g :: 0 <= g < n ==> |LiveCases(cfg, s, j, g)| == Weight(cfg, cfg.jobs[j].groups[g])
    ensures LiveInGroups(cfg, s, j, n) >= BestOf(k, Weights(cfg, j)[..n])
    decreases n, k
  {
    hide LiveCases, Weight;
    if n > 0 {
      assert Weights(cfg, j)[..n][..n - 1] == Weights(cfg, j)[..n - 1];
      BestIsSum(cfg, s, j, n - 1, k);
      BestIsSum(cfg, s, j, n - 1, k - 1);
    }
  }

  lemma {:induction false} JobsAreFull(cfg: Config, s: State, n: nat)
    requires ShapeInv(cfg, s) && OnlyLaunched(cfg, s) && n <= |cfg.jobs| && Small(cfg)
    requires forall a :: IsLaunch(a) ==> !Enabled(cfg, s, a)
    ensures LiveInJobs(cfg, s, n) >= Demand(cfg, n)
  {
    hide ShapeInv, OnlyLaunched, Enabled, LiveInGroups, BestOf, LiveCases, Weight;
    LaunchedIsUp(cfg, s);
    if n > 0 {
      var j := n - 1;
      JobsAreFull(cfg, s, j);
      if cfg.jobs[j].compare.Some? {
        var groups := |cfg.jobs[j].groups|;
        forall g | 0 <= g < groups ensures |LiveCases(cfg, s, j, g)| == Weight(cfg, cfg.jobs[j].groups[g]) {
          GroupIsFull(cfg, s, j, g);
        }
        BestIsSum(cfg, s, j, groups, GRADE_GROUP_CONCURRENCY);
        assert Weights(cfg, j)[..groups] == Weights(cfg, j);
      }
    }
  }

  /** For jobs of at most four groups the demand is reached: some interleaving has that many cases alive at once. */
  lemma DemandIsReached(cfg: Config) returns (s: State)
    requires Small(cfg)
    ensures Reachable(cfg, s) && s.Up? && AllLive(cfg, s) == Demand(cfg, |cfg.jobs|)
  {
    hide Reachable, Small;
    var start := Up(BoxIds(cfg, RunPool), BoxIds(cfg, GradePool), map[], map[], map[], map[]);
    assert Reachable(cfg, start) && OnlyLaunched(cfg, start) by { StartIsReachable(cfg, start); }
    s := LaunchAll(cfg, start);
    hide OnlyLaunched, Enabled;
    LaunchedIsUp(cfg, s);
    InvWhenReachable(cfg, s);
    JobsAreFull(cfg, s, |cfg.jobs|);
    LiveIsAtMostDemand(cfg, s);
  }

  lemma LaunchedIsUp(cfg: Config, s: State)
    requires OnlyLaunched(cfg, s)
    ensures s.Up?
  {
  }

  lemma StartIsReachable(cfg: Config, s: State)
    requires Initial(cfg, s)
    ensures Reachable(cfg, s) && OnlyLaunched(cfg, s)
  {
    assert Run(cfg, [s]);
  }

  /** Waiting goroutines never outnumber the boxes: what the comment at GradePoolSize reads as. */
  ghost predicate NeverMoreThanBoxes(cfg: Config) {
    forall s :: Reachable(cfg, s) && s.Up? ==> AllLive(cfg, s) <= cfg.GradePoolSize()
  }

  /** The global bound holds wherever the demand is at most the number of boxes, for jobs of any size. */
  lemma GlobalBound(cfg: Config)
    requires Demand(cfg, |cfg.jobs|) <= cfg.GradePoolSize()
    ensures NeverMoreThanBoxes(cfg)
  {
    hide Reachable, AllLive, Demand;
    forall s | Reachable(cfg, s) && s.Up? ensures AllLive(cfg, s) <= cfg.GradePoolSize() {
      LiveIsAtMostDemand(cfg, s);
    }
  }

  /** For jobs of at most four groups it holds only there. */
  lemma GlobalBoundIff(cfg: Config)
    requires Small(cfg)
    ensures NeverMoreThanBoxes(cfg) <==> Demand(cfg, |cfg.jobs|) <= cfg.GradePoolSize()
  {
    hide Reachable, AllLive, Demand, Small;
    if Demand(cfg, |cfg.jobs|) <= cfg.GradePoolSize() {
      GlobalBound(cfg);
    } else {
      var s := DemandIsReached(cfg);
    }
  }

  /** One job of two groups of two cases, with an amount of 1: four cases are alive over two boxes. */
  lemma FourCasesOverTwoBoxes(cfg: Config) returns (s: State)
    requires cfg.gradeAmount == 1 && |cfg.jobs| == 1 && cfg.jobs[0].compare.Some? && |cfg.jobs[0].groups| == 2
    requires |cfg.jobs[0].groups[0].testCases| == 2 && |cfg.jobs[0].groups[1].testCases| == 2
    ensures Reachable(cfg, s) && s.Up? && AllLive(cfg, s) == 4 && cfg.GradePoolSize() == 2
  {
    hide Reachable, AllLive;
    var ws := Weights(cfg, 0);
    assert ws[..1] == [2] && ws[..1][..0] == [];
    assert BestOf(4, ws[..1]) == 2 && BestOf(3, ws[..1]) == 2;
    assert Demand(cfg, 1) == 4 by { assert Demand(cfg, 0) == 0; }
    s := DemandIsReached(cfg);
  }
}
