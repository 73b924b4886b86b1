/** What holds in every run of the worker, whatever the interleaving. */
module EngineTheorems {
  import opened GradeSpec
  import opened Models
  import opened Sandbox
  import opened BoxWork
  import opened Engine
  import opened EnginePool
  import opened EngineShape
  import opened EngineProgress
  import opened EngineResults

  ghost predicate Inv(cfg: Config, s: State) {
    BoxInv(cfg, s) && ShapeInv(cfg, s) && DataInv(cfg, s)
  }

  lemma NextKeepsInv(cfg: Config, s: State, s': State)
    requires Inv(cfg, s) && Next(cfg, s, s')
    ensures Inv(cfg, s')
  {
    hide BoxInv;
    hide ShapeInv;
    hide DataInv;
    hide Apply;
    hide Enabled;
    var a :| Enabled(cfg, s, a) && s' == Apply(cfg, s, a);
    StepKeepsShape(cfg, s, a);
    StepKeepsBoxes(cfg, s, a);
    StepKeepsData(cfg, s, a);
  }

  lemma {:induction false} InvInEveryRun(cfg: Config, run: seq<State>, i: nat)
    requires Run(cfg, run) && i < |run|
    ensures Inv(cfg, run[i])
  {
    hide BoxInv;
    hide ShapeInv;
    hide DataInv;
    hide Next;
    hide Initial;
    if i == 0 {
      InitialBoxes(cfg, run[0]);
      InitialShape(cfg, run[0]);
      InitialData(cfg, run[0]);
    } else {
      InvInEveryRun(cfg, run, i - 1);
      assert Next(cfg, run[i - 1], run[i - 1 + 1]);
      NextKeepsInv(cfg, run[i - 1], run[i]);
    }
  }

  lemma InvWhenReachable(cfg: Config, s: State)
    requires Reachable(cfg, s)
    ensures Inv(cfg, s)
  {
    hide Inv;
    hide Initial;
    hide Next;
    var run :| Run(cfg, run) && run[|run| - 1] == s;
    InvInEveryRun(cfg, run, |run| - 1);
  }

  // ---- boxes --------------------------------------------------------------------------------------

  /** No box is lost, duplicated or shared, and returning a box never blocks. */
  lemma BoxesAreConserved(cfg: Config, s: State, k: Kind)
    requires Reachable(cfg, s) && s.Up?
    ensures Elements(Free(s, k)) !! HeldIds(s, k)
    ensures Elements(Free(s, k)) + HeldIds(s, k) == Elements(BoxIds(cfg, k))
    ensures forall u, v :: u in Holders(s, k) && v in Holders(s, k) && PcOf(s, u).box == PcOf(s, v).box ==> u == v
    ensures |Free(s, k)| + |Holders(s, k)| == |BoxIds(cfg, k)|
    ensures forall u :: u in Holders(s, k) ==> |Free(s, k)| < |BoxIds(cfg, k)|
  {
    InvWhenReachable(cfg, s);
    Conservation(cfg, s, k);
  }

  /**
   * Reusing boxes is invisible: between Init and Cleanup, the stage a goroutine has reached and the contents of
   * its box are those of the same duty on a private fresh box after the same number of steps.
   */
  lemma BoxReuseIsInvisible(cfg: Config, s: State, u: Unit)
    requires Reachable(cfg, s) && s.Up? && PcOf(s, u).InBox? && !PcOf(s, u).stage.Over?
    ensures var pc := PcOf(s, u);
            (pc.stage, DiskAt(s, pc.box)) == Alone(cfg.env, pc.duty, StepsTo(cfg.env, pc.duty, pc.stage))
  {
    InvWhenReachable(cfg, s);
    assert UnitData(cfg, s, u) && CursorOk(cfg, s, u);
  }

  /** A program or compare that runs without compiling first sees exactly the files that were created for it. */
  lemma RunsSeeOwnFilesOnly(cfg: Config, s: State, u: Unit)
    requires Reachable(cfg, s) && s.Up? && PcOf(s, u).InBox?
    requires PcOf(s, u).stage == Writing(|Plan(cfg.env, PcOf(s, u).duty)|)
    ensures var (box, duty) := (DiskAt(s, PcOf(s, u).box), PcOf(s, u).duty);
            if duty.Compare? then
              && box.meta == None && box.files.Keys <= {"output", "sol_output", "run_script.sh"}
              && "output" in box.files && box.files["output"] == Data(duty.output)
              && "sol_output" in box.files && box.files["sol_output"] == Data(duty.expected)
            else HoldsExactly(box, duty.prog.files)
  {
    hide Plan, Reachable, HoldsExactly;
    var pc := PcOf(s, u);
    var n := |Plan(cfg.env, pc.duty)|;
    BoxReuseIsInvisible(cfg, s, u);
    BoxHoldsOwnFilesOnly(cfg.env, pc.duty, n);
    assert Plan(cfg.env, pc.duty)[..n] == Plan(cfg.env, pc.duty);
    PlanOfDuty(cfg, pc.duty, DiskAt(s, pc.box));
  }

  lemma PlanOfDuty(cfg: Config, duty: Duty, box: Box)
    requires HoldsExactly(box, Plan(cfg.env, duty))
    ensures if duty.Compare? then
              && box.meta == None && box.files.Keys <= {"output", "sol_output", "run_script.sh"}
              && "output" in box.files && box.files["output"] == Data(duty.output)
              && "sol_output" in box.files && box.files["sol_output"] == Data(duty.expected)
            else HoldsExactly(box, duty.prog.files)
  {
    hide Preamble;
    if duty.Compare? {
      var plan := Plan(cfg.env, duty);
      assert plan[0] == File("output", duty.output) && plan[1] == File("sol_output", duty.expected);
      assert |plan| <= 3 && (|plan| == 3 ==> plan[2].name == "run_script.sh");
    }
  }

  // ---- fan-out ------------------------------------------------------------------------------------

  /** At most 4 groups of a job, 2G cases of a group, and 2G boxes over all jobs are in use at a time. */
  lemma FanOutIsBounded(cfg: Config, s: State, j: nat, g: nat)
    requires Reachable(cfg, s) && s.Up? && ValidGroup(cfg, j, g)
    ensures |LiveGroups(cfg, s, j)| <= 4
    ensures |LiveCases(cfg, s, j, g)| <= 2 * cfg.gradeAmount
    ensures |Holders(s, GradePool)| <= 2 * cfg.gradeAmount
  {
    InvWhenReachable(cfg, s);
    assert JobOk(cfg, s, j) && GroupOk(cfg, s, j, g);
    Conservation(cfg, s, GradePool);
  }

  // ---- ending -------------------------------------------------------------------------------------

  /** Every run, of any interleaving, is at most this long: a start, the work there is, and perhaps a crash. */
  lemma {:induction false} RunsAreBounded(cfg: Config, run: seq<State>)
    requires Run(cfg, run)
    ensures |run| <= WorkLeft(cfg, run[0]) + 2
    ensures var last := run[|run| - 1]; last.Up? ==> |run| + WorkLeft(cfg, last) <= WorkLeft(cfg, run[0]) + 1
  {
    hide Initial;
    hide WorkLeft;
    hide Apply;
    hide Enabled;
    var n := |run| - 1;
    if n > 0 {
      var before := run[..n];
      assert forall i :: 0 <= i < |before| - 1 ==> Next(cfg, run[i], run[i + 1]);
      RunsAreBounded(cfg, before);
      assert Next(cfg, run[n - 1], run[n - 1 + 1]);
      if run[n].Up? { NextUsesWork(cfg, run, n); }
    }
  }

  lemma NextUsesWork(cfg: Config, run: seq<State>, n: nat)
    requires Run(cfg, run) && 0 < n < |run| && run[n - 1].Up? && run[n].Up? && Next(cfg, run[n - 1], run[n])
    ensures WorkLeft(cfg, run[n]) < WorkLeft(cfg, run[n - 1])
  {
    hide WorkLeft;
    hide Apply;
    hide Enabled;
    hide BoxInv;
    hide ShapeInv;
    hide Run;
    hide Alone;
    hide Plan;
    InvInEveryRun(cfg, run, n - 1);
    var s := run[n - 1];
    var a :| Enabled(cfg, s, a) && run[n] == Apply(cfg, s, a);
    forall u ensures StageOk(cfg, s, u) { StagesAreReached(cfg, s, u); }
    StepUsesWork(cfg, s, a);
  }

  lemma StagesAreReached(cfg: Config, s: State, u: Unit)
    requires DataInv(cfg, s) && ShapeInv(cfg, s) && s.Up?
    ensures StageOk(cfg, s, u)
  {
    hide Plan;
    var pc := PcOf(s, u);
    if pc.InBox? && pc.stage.Writing? {
      assert UnitData(cfg, s, u) && CursorOk(cfg, s, u);
      StageTellsSteps(cfg.env, pc.duty, pc.stage.k);
    }
  }

  /** With boxes in the pools that are used, no interleaving gets stuck before every call has returned. */
  lemma StuckMeansReturned(cfg: Config, s: State)
    requires Reachable(cfg, s) && s.Up? && Served(cfg)
    ensures AllReturned(cfg, s) || exists s' :: Next(cfg, s, s')
  {
    hide Reachable;
    hide AllReturned;
    InvWhenReachable(cfg, s);
    hide BoxInv;
    hide ShapeInv;
    if !AllReturned(cfg, s) {
      var a := NoDeadlock(cfg, s);
      assert Next(cfg, s, Apply(cfg, s, a));
    }
  }

  /** Unless a sandbox command fails or a test case does, the process is never forced to exit. */
  lemma CanGoOnWithoutExit(cfg: Config, s: State) returns (s': State)
    requires Reachable(cfg, s) && s.Up? && !AllReturned(cfg, s)
    requires Served(cfg)
    requires forall j :: 0 <= j < |cfg.jobs| ==> Grade(cfg.env, cfg.jobs[j]).Some?
    ensures Next(cfg, s, s') && s'.Up?
  {
    hide Reachable;
    InvWhenReachable(cfg, s);
    var a := NoDeadlock(cfg, s);
    s' := Apply(cfg, s, a);
    if a.InitFails? { NeverCancelled(cfg, s, a.u); }
  }

  /** A context is cancelled only in a job whose sequential grading is an error. */
  lemma NeverCancelled(cfg: Config, s: State, u: Unit)
    requires Inv(cfg, s) && s.Up? && ValidUnit(cfg, u) && Cancelled(s, u)
    ensures Grade(cfg.env, cfg.jobs[u.j]).None?
  {
    assert GroupData(cfg, s, u.j, u.g) && JobData(cfg, s, u.j);
  }

  /** An empty grade pool, which the configuration does not rule out, leaves any job with a test case hanging. */
  lemma EmptyPoolHangs(cfg: Config, s: State, j: nat, g: nat)
    requires Reachable(cfg, s) && s.Up? && ValidGroup(cfg, j, g)
    requires cfg.gradeAmount == 0 && Tcs(cfg, j, g) != [] && cfg.jobs[j].compare.Some?
    ensures JobOf(s, j).ret.Running?
  {
    InvWhenReachable(cfg, s);
    NoCaseLaunched(cfg, s, j, g);
    assert JobOk(cfg, s, j) && GroupOk(cfg, s, j, g);
  }

  lemma NoCaseLaunched(cfg: Config, s: State, j: nat, g: nat)
    requires Inv(cfg, s) && Reachable(cfg, s) && s.Up? && ValidGroup(cfg, j, g) && cfg.gradeAmount == 0
    ensures GroupOf(s, j, g).next == 0
  {
    hide Inv;
    var run :| Run(cfg, run) && run[|run| - 1] == s;
    NoCaseLaunchedInRun(cfg, run, |run| - 1, j, g);
  }

  lemma {:induction false} NoCaseLaunchedInRun(cfg: Config, run: seq<State>, i: nat, j: nat, g: nat)
    requires Run(cfg, run) && i < |run| && ValidGroup(cfg, j, g) && cfg.gradeAmount == 0
    ensures run[i].Up? ==> GroupOf(run[i], j, g).next == 0
  {
    hide Apply;
    hide Enabled;
    if i > 0 {
      NoCaseLaunchedInRun(cfg, run, i - 1, j, g);
      assert Next(cfg, run[i - 1], run[i - 1 + 1]);
      var a :| Enabled(cfg, run[i - 1], a) && run[i] == Apply(cfg, run[i - 1], a);
      if run[i].Up? { NoCaseLaunchedByStep(cfg, run[i - 1], a, j, g); }
    }
  }

  lemma NoCaseLaunchedByStep(cfg: Config, s: State, a: Action, j: nat, g: nat)
    requires s.Up? && Enabled(cfg, s, a) && Apply(cfg, s, a).Up?
    requires ValidGroup(cfg, j, g) && cfg.gradeAmount == 0 && GroupOf(s, j, g).next == 0
    ensures GroupOf(Apply(cfg, s, a), j, g).next == 0
  {
    hide StageStep;
    hide AfterBox;
    hide FirstDuty;
    hide OfGroup;
    hide Plus;
    hide Summary;
    hide OfCase;
  }

  /** An empty run pool leaves every Run call hanging. */
  lemma {:induction false} NoRequestServedInRun(cfg: Config, run: seq<State>, i: nat, k: nat)
    requires Run(cfg, run) && i < |run| && cfg.runAmount == 0
    ensures run[i].Up? ==> PcOf(run[i], Request(k)).Idle? || PcOf(run[i], Request(k)).Waiting?
  {
    hide Apply;
    hide Enabled;
    hide BoxInv;
    hide ShapeInv;
    hide DataInv;
    if i > 0 {
      NoRequestServedInRun(cfg, run, i - 1, k);
      assert Next(cfg, run[i - 1], run[i - 1 + 1]);
      var a :| Enabled(cfg, run[i - 1], a) && run[i] == Apply(cfg, run[i - 1], a);
      InvInEveryRun(cfg, run, i - 1);
      if run[i].Up? { NoRequestServedByStep(cfg, run[i - 1], a, k); }
    }
  }

  lemma NoRequestServedByStep(cfg: Config, s: State, a: Action, k: nat)
    requires BoxInv(cfg, s) && s.Up? && Enabled(cfg, s, a) && Apply(cfg, s, a).Up? && cfg.runAmount == 0
    requires PcOf(s, Request(k)).Idle? || PcOf(s, Request(k)).Waiting?
    ensures PcOf(Apply(cfg, s, a), Request(k)).Idle? || PcOf(Apply(cfg, s, a), Request(k)).Waiting?
  {
    hide StageStep;
    hide AfterBox;
    hide FirstDuty;
    hide OfGroup;
    hide Plus;
    hide Summary;
    hide OfCase;
    assert s.runFree == [] by { EmptyPoolIsEmpty(cfg, s); }
  }

  lemma EmptyPoolIsEmpty(cfg: Config, s: State)
    requires BoxInv(cfg, s) && s.Up? && cfg.runAmount == 0
    ensures s.runFree == []
  {
    assert FreeOk(cfg, s, RunPool);
    assert forall b :: b in Free(s, RunPool) ==> b in BoxIds(cfg, RunPool);
    if s.runFree != [] {
      HasElement(s.runFree);
    }
  }

  lemma HasElement<T>(q: seq<T>)
    requires q != []
    ensures exists b :: b in q
  {
    assert q[0] in q;
  }

  lemma NoRequestReplied(cfg: Config, s: State, k: nat)
    requires Reachable(cfg, s) && s.Up? && cfg.runAmount == 0
    ensures !PcOf(s, Request(k)).Replied?
  {
    hide Apply;
    hide Enabled;
    var run :| Run(cfg, run) && run[|run| - 1] == s;
    NoRequestServedInRun(cfg, run, |run| - 1, k);
  }

  /**
   * The other half of StuckMeansReturned: without boxes in a pool that is used, no run ever has all its calls
   * returned, so a run that does not end the process ends with a call that hangs.
   */
  lemma UnservedNeverReturns(cfg: Config, s: State)
    requires Reachable(cfg, s) && s.Up? && !Served(cfg)
    ensures !AllReturned(cfg, s)
  {
    hide Reachable;
    if cfg.gradeAmount == 0 && exists j :: 0 <= j < |cfg.jobs| && NeedsBoxes(cfg.jobs[j]) {
      var j :| 0 <= j < |cfg.jobs| && NeedsBoxes(cfg.jobs[j]);
      var g :| 0 <= g < |cfg.jobs[j].groups| && cfg.jobs[j].groups[g].testCases != [];
      EmptyPoolHangs(cfg, s, j, g);
    } else {
      NoRequestReplied(cfg, s, 0);
    }
  }

  /** Both pools: every run that gets stuck has all its calls returned, for as long as there is a box to be had. */
  lemma StuckIsReturnedIff(cfg: Config, s: State)
    requires Reachable(cfg, s) && s.Up? && !exists s' :: Next(cfg, s, s')
    ensures AllReturned(cfg, s) <==> Served(cfg)
  {
    hide Reachable, Next, AllReturned, Served;
    if Served(cfg) {
      StuckMeansReturned(cfg, s);
    } else {
      UnservedNeverReturns(cfg, s);
    }
  }

  // ---- results ------------------------------------------------------------------------------------

  /**
   * Schedule independence: a Grade call that returns has the sequential result of its request up to order,
   * and returns an error exactly when the sequential grading is one.
   */
  lemma GradeIsScheduleIndependent(cfg: Config, s: State, j: nat)
    requires Reachable(cfg, s) && s.Up? && j < |cfg.jobs| && JobOf(s, j).ret.Returned?
    ensures SameAnswer(JobOf(s, j).ret.result, Grade(cfg.env, cfg.jobs[j]))
  {
    InvWhenReachable(cfg, s);
    assert JobData(cfg, s, j);
  }

  /** A Run call's outcome does not depend on what else the worker does. */
  lemma RunIsScheduleIndependent(cfg: Config, s: State, k: nat)
    requires Reachable(cfg, s) && s.Up? && k < |cfg.requests| && PcOf(s, Request(k)).Replied?
    ensures PcOf(s, Request(k)).outcome == RunRequest(cfg.env, cfg.requests[k])
  {
    InvWhenReachable(cfg, s);
    assert UnitData(cfg, s, Request(k));
  }

  /** When Grade returns, with a result or an error, its goroutines have ended and none of them has a box. */
  lemma QuietAfterReturn(cfg: Config, s: State, j: nat)
    requires Reachable(cfg, s) && s.Up? && j < |cfg.jobs| && JobOf(s, j).ret.Returned?
    ensures forall g: nat, c: nat :: !Alive(PcOf(s, Case(j, g, c))) && !HasBox(PcOf(s, Case(j, g, c)))
    ensures forall g: nat :: !GroupAlive(GroupOf(s, j, g))
    ensures forall g: nat, c: nat :: Case(j, g, c) !in Holders(s, GradePool)
  {
    InvWhenReachable(cfg, s);
    assert JobOk(cfg, s, j);
    forall g: nat ensures !GroupAlive(GroupOf(s, j, g)) { assert GroupOk(cfg, s, j, g); }
    forall g: nat, c: nat ensures !Alive(PcOf(s, Case(j, g, c))) {
      assert GroupOk(cfg, s, j, g) && CursorOk(cfg, s, Case(j, g, c));
    }
  }

  lemma NoHoldersLeft(cfg: Config, s: State, u: Unit)
    requires Reachable(cfg, s) && s.Up? && AllReturned(cfg, s)
    ensures !HasBox(PcOf(s, u))
  {
    hide Reachable;
    InvWhenReachable(cfg, s);
    assert CursorOk(cfg, s, u);
    if u.Case? && ValidUnit(cfg, u) { QuietAfterReturn(cfg, s, u.j); }
  }

  /** When every call has returned, every box is back in its pool. */
  lemma AllBoxesBack(cfg: Config, s: State, k: Kind)
    requires Reachable(cfg, s) && s.Up? && AllReturned(cfg, s)
    ensures Elements(Free(s, k)) == Elements(BoxIds(cfg, k)) && |Free(s, k)| == |BoxIds(cfg, k)|
  {
    hide Reachable;
    hide BoxInv;
    hide ShapeInv;
    hide DataInv;
    hide BoxIds;
    InvWhenReachable(cfg, s);
    Conservation(cfg, s, k);
    forall u | u in s.pcs ensures !HasBox(PcOf(s, u)) { NoHoldersLeft(cfg, s, u); }
    assert Holders(s, k) == {};
    assert HeldIds(s, k) == {};
  }
}
