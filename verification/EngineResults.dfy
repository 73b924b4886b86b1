/**
 * Whatever the interleaving, a Grade call that returns has the result that GradeSpec.Grade gives to its
 * request, up to the order in which groups and cases are listed; and what a goroutine sees in its box is what
 * it would see in a private one.
 */
module EngineResults {
  import opened Floats
  import opened Models
  import opened Sandbox
  import opened GradeSpec
  import opened BoxWork
  import opened Sequences
  import opened Engine
  import opened EnginePool
  import opened EngineShape

  // ---- results up to order ------------------------------------------------------------------------

  datatype AnyOrderGroup = AnyOrderGroup(id: string, score: int, results: multiset<TestCaseResult<Float32>>)

  function AnyOrder(r: TestCaseGroupResult<Float32>): AnyOrderGroup {
    AnyOrderGroup(r.id, r.score, multiset(r.results))
  }

  /** Equal status, score and averages, and equal multisets of groups, each with an equal multiset of cases. */
  ghost predicate SameGrade(a: GradeResult<Float32, Average>, b: GradeResult<Float32, Average>) {
    && a.status == b.status && a.score == b.score && a.avgMemory == b.avgMemory && a.avgWallTime == b.avgWallTime
    && (a.groups.Some? <==> b.groups.Some?)
    && (a.groups.Some? ==>
          multiset(Mapped(AnyOrder, a.groups.value)) == multiset(Mapped(AnyOrder, b.groups.value)))
  }

  ghost predicate SameAnswer(a: Option<GradeResult<Float32, Average>>, b: Option<GradeResult<Float32, Average>>) {
    (a.Some? <==> b.Some?) && (a.Some? ==> SameGrade(a.value, b.value))
  }

  // ---- invariant ----------------------------------------------------------------------------------

  ghost predicate JobFails(cfg: Config, j: nat)
    requires j < |cfg.jobs|
  {
    Grade(cfg.env, cfg.jobs[j]).None?
  }

  function CaseAnswer(cfg: Config, u: Unit): Option<TestCaseResult<Float32>> {
    if u.Case? && ValidUnit(cfg, u) then GradeCase(cfg.env, cfg.jobs[u.j], CaseOf(cfg, u)) else None
  }

  /** A duty of a unit: its first, or the compare that its run led to. */
  ghost predicate DutyOk(cfg: Config, s: State, u: Unit, d: Duty)
    requires s.Up? && ValidUnit(cfg, u)
  {
    || d == FirstDuty(cfg, u)
    || (&& u.Case? && cfg.jobs[u.j].compare.Some? && d.Compare?
        && d.cmp == cfg.jobs[u.j].compare.value && d.expected == CaseOf(cfg, u).output && d.meta.status == RUN_PASSED
        && (!Cancelled(s, u) ==> Meaning(cfg.env, FirstDuty(cfg, u)) == Ran(d.output, d.meta)))
  }

  /** Stage and box contents are those of the same duty on a private fresh box. */
  ghost predicate InBoxOk(cfg: Config, s: State, u: Unit, d: Duty, st: Stage, box: Box)
    requires s.Up?
  {
    match st
    case Over(o) => !Cancelled(s, u) ==> o == Meaning(cfg.env, d)
    case _ => (st, box) == Alone(cfg.env, d, StepsTo(cfg.env, d, st))
  }

  ghost predicate UnitData(cfg: Config, s: State, u: Unit)
    requires s.Up?
  {
    ValidUnit(cfg, u) ==>
      match PcOf(s, u)
      case Waiting(d) => DutyOk(cfg, s, u, d)
      case Acquired(d, _) => DutyOk(cfg, s, u, d)
      case InBox(d, b, st) => DutyOk(cfg, s, u, d) && InBoxOk(cfg, s, u, d, st, DiskAt(s, b))
      case Folding(r) => u.Case? && (!Cancelled(s, u) ==> CaseAnswer(cfg, u) == Some(r))
      case Failing => u.Case? && (!Cancelled(s, u) ==> CaseAnswer(cfg, u).None?)
      case Replied(o) => o == Meaning(cfg.env, FirstDuty(cfg, u))
      case _ => true
  }

  predicate Folded(pc: Pc) { (pc.Exiting? || pc.Done?) && pc.ok }

  predicate Failed(pc: Pc) { (pc.Exiting? || pc.Done?) && !pc.ok }

  ghost predicate GroupCancelled(s: State, j: nat, g: nat)
    requires s.Up?
  {
    GroupOf(s, j, g).err || JobOf(s, j).err
  }

  ghost predicate GroupData(cfg: Config, s: State, j: nat, g: nat)
    requires s.Up? && ValidGroup(cfg, j, g)
  {
    var grp := GroupOf(s, j, g);
    && (grp.err ==> JobFails(cfg, j))
    && |grp.results| == |grp.order| && NoDups(grp.order)
    && (forall c: nat :: c in grp.order <==> c < |Tcs(cfg, j, g)| && Folded(PcOf(s, Case(j, g, c))))
    && (forall c: nat :: c < |Tcs(cfg, j, g)| && Failed(PcOf(s, Case(j, g, c))) ==> grp.err)
    && grp.total == Total(Mapped(OfCase, grp.results))
    && (!GroupCancelled(s, j, g) ==>
          forall i :: 0 <= i < |grp.order| ==> CaseAnswer(cfg, Case(j, g, grp.order[i])) == Some(grp.results[i]))
  }

  function GroupAnswer(cfg: Config, j: nat, g: nat): Option<GroupOutcome> {
    if ValidGroup(cfg, j, g) then GradeGroup(cfg.env, cfg.jobs[j], cfg.jobs[j].groups[g]) else None
  }

  function TallyAt(cfg: Config, j: nat): nat -> Tally {
    (g: nat) => if GroupAnswer(cfg, j, g).Some? then GroupAnswer(cfg, j, g).value.tally else ZERO
  }

  ghost predicate GroupResultOk(cfg: Config, j: nat, g: nat, r: TestCaseGroupResult<Float32>) {
    GroupAnswer(cfg, j, g).Some? && AnyOrder(r) == AnyOrder(GroupAnswer(cfg, j, g).value.result)
  }

  predicate Ended(grp: Group) { grp.phase.Leaving? || grp.phase.Left? }

  ghost predicate JobData(cfg: Config, s: State, j: nat)
    requires s.Up? && j < |cfg.jobs|
  {
    var job := JobOf(s, j);
    && (job.err ==> JobFails(cfg, j))
    && |job.results| == |job.order| && NoDups(job.order)
    && (forall g: nat :: g in job.order <==>
          g < |cfg.jobs[j].groups| && Ended(GroupOf(s, j, g)) && !GroupOf(s, j, g).err)
    && (forall g: nat :: g < |cfg.jobs[j].groups| && Ended(GroupOf(s, j, g)) && GroupOf(s, j, g).err ==> job.err)
    && (!job.err ==>
          && job.total == Total(Mapped(TallyAt(cfg, j), job.order))
          && forall i :: 0 <= i < |job.order| ==> GroupResultOk(cfg, j, job.order[i], job.results[i]))
    && (job.ret.Returned? ==> SameAnswer(job.ret.result, Grade(cfg.env, cfg.jobs[j])))
  }

  ghost predicate DataInv(cfg: Config, s: State) {
    s.Up? ==>
      && (forall u :: UnitData(cfg, s, u))
      && (forall j: nat, g: nat :: ValidGroup(cfg, j, g) ==> GroupData(cfg, s, j, g))
      && (forall j: nat :: j < |cfg.jobs| ==> JobData(cfg, s, j))
  }

  lemma InitialData(cfg: Config, s: State)
    requires Initial(cfg, s)
    ensures DataInv(cfg, s)
  {
    forall j: nat, g: nat | ValidGroup(cfg, j, g) ensures GroupData(cfg, s, j, g) {
      assert GroupOf(s, j, g) == NewGroup;
    }
    forall j: nat | j < |cfg.jobs| ensures JobData(cfg, s, j) {
      assert JobOf(s, j) == NewJob;
      forall g: nat ensures GroupOf(s, j, g) == NewGroup {}
    }
  }

  // ---- facts about the specification --------------------------------------------------------------

  lemma FailingCaseFailsJob(cfg: Config, u: Unit)
    requires u.Case? && ValidUnit(cfg, u) && cfg.jobs[u.j].compare.Some? && CaseAnswer(cfg, u).None?
    ensures JobFails(cfg, u.j)
  {
    hide GradeCase;
    var job := cfg.jobs[u.j];
    var f, h := CaseGrader(cfg.env, job), GroupGrader(cfg.env, job);
    assert f(Tcs(cfg, u.j, u.g)[u.c]).None?;
    assert GradeGroup(cfg.env, job, job.groups[u.g]).None?;
    assert h(job.groups[u.g]).None?;
  }

  /** The outcome of a case from the outcomes of its one or two duties. */
  lemma CaseAnswerFromDuties(cfg: Config, u: Unit, d: Duty)
    requires u.Case? && ValidUnit(cfg, u) && cfg.jobs[u.j].compare.Some?
    requires d == FirstDuty(cfg, u)
             || (d.Compare? && d.cmp == cfg.jobs[u.j].compare.value && d.expected == CaseOf(cfg, u).output
                 && d.meta.status == RUN_PASSED && Meaning(cfg.env, FirstDuty(cfg, u)) == Ran(d.output, d.meta))
    ensures var pc := AfterBox(cfg, u, d, Meaning(cfg.env, d));
            match pc
            case Folding(r) => CaseAnswer(cfg, u) == Some(r)
            case Failing => CaseAnswer(cfg, u).None?
            case _ => true
  {
    hide RunTestCase;
    hide CompareOutput;
    hide CaseResult;
  }

  // ---- what a step leaves alone -------------------------------------------------------------------

  ghost predicate ErrorsKept(s: State, s': State)
    requires s.Up? && s'.Up?
  {
    && (forall j: nat, g: nat :: GroupOf(s, j, g).err ==> GroupOf(s', j, g).err)
    && (forall j: nat :: JobOf(s, j).err ==> JobOf(s', j).err)
  }

  /** A step of unit u touches no other unit, nor the contents of any box that another unit holds. */
  lemma OtherUnitsKeepData(cfg: Config, s: State, s': State, u: Unit, v: Unit)
    requires DataInv(cfg, s) && BoxInv(cfg, s) && s.Up? && s'.Up? && v != u
    requires s'.pcs == s.pcs[u := PcOf(s', u)] || s'.pcs == s.pcs
    requires s'.disk == s.disk
             || (HasBox(PcOf(s, u)) && s'.disk == s.disk[PcOf(s, u).box := DiskAt(s', PcOf(s, u).box)])
    requires ErrorsKept(s, s')
    ensures UnitData(cfg, s', v)
  {
    hide Alone;
    hide Meaning;
    hide CaseAnswer;
    hide FirstDuty;
    hide StepsTo;
    hide GroupData;
    hide JobData;
    assert UnitData(cfg, s, v);
    assert PcOf(s', v) == PcOf(s, v);
    assert Cancelled(s, v) ==> Cancelled(s', v);
    assert HasBox(PcOf(s, v)) ==> DiskAt(s', PcOf(s, v).box) == DiskAt(s, PcOf(s, v).box);
  }

  lemma GroupKeepsData(cfg: Config, s: State, s': State, j: nat, g: nat)
    requires DataInv(cfg, s) && s.Up? && s'.Up? && ValidGroup(cfg, j, g) && ErrorsKept(s, s')
    requires var (a, b) := (GroupOf(s, j, g), GroupOf(s', j, g));
             b.order == a.order && b.results == a.results && b.total == a.total && b.err == a.err
    requires forall c: nat :: c < |Tcs(cfg, j, g)| ==>
               && (Folded(PcOf(s', Case(j, g, c))) <==> Folded(PcOf(s, Case(j, g, c))))
               && (Failed(PcOf(s', Case(j, g, c))) <==> Failed(PcOf(s, Case(j, g, c))))
    ensures GroupData(cfg, s', j, g)
  {
    hide CaseAnswer;
    hide UnitData;
    hide JobData;
    hide JobFails;
    assert GroupData(cfg, s, j, g);
  }

  lemma JobKeepsData(cfg: Config, s: State, s': State, j: nat)
    requires DataInv(cfg, s) && s.Up? && s'.Up? && j < |cfg.jobs|
    requires var (a, b) := (JobOf(s, j), JobOf(s', j));
             b.order == a.order && b.results == a.results && b.total == a.total && b.err == a.err && b.ret == a.ret
    requires forall g: nat :: g < |cfg.jobs[j].groups| ==>
               && (Ended(GroupOf(s', j, g)) <==> Ended(GroupOf(s, j, g)))
               && (Ended(GroupOf(s, j, g)) ==> GroupOf(s', j, g).err == GroupOf(s, j, g).err)
    ensures JobData(cfg, s', j)
  {
    hide UnitData;
    hide GroupData;
    hide JobFails;
    hide GroupResultOk;
    hide TallyAt;
    hide SameAnswer;
    assert JobData(cfg, s, j);
  }

  // ---- steps of a unit inside its group's goroutine -----------------------------------------------

  /** Steps that change one program counter, and the box it holds, but no group and no job. */
  lemma QuietStepKeepsData(cfg: Config, s: State, s': State, u: Unit)
    requires DataInv(cfg, s) && BoxInv(cfg, s) && s.Up? && s'.Up?
    requires s'.pcs == s.pcs[u := PcOf(s', u)] && s'.groups == s.groups && s'.jobs == s.jobs
    requires s'.disk == s.disk
             || (HasBox(PcOf(s, u)) && s'.disk == s.disk[PcOf(s, u).box := DiskAt(s', PcOf(s, u).box)])
    requires Folded(PcOf(s', u)) <==> Folded(PcOf(s, u))
    requires Failed(PcOf(s', u)) <==> Failed(PcOf(s, u))
    requires UnitData(cfg, s', u)
    ensures DataInv(cfg, s')
  {
    hide UnitData;
    hide GroupData;
    hide JobData;
    forall v ensures UnitData(cfg, s', v) {
      if v != u { OtherUnitsKeepData(cfg, s, s', u, v); }
    }
    forall j: nat, g: nat | ValidGroup(cfg, j, g) ensures GroupData(cfg, s', j, g) { GroupKeepsData(cfg, s, s', j, g); }
    forall j: nat | j < |cfg.jobs| ensures JobData(cfg, s', j) { JobKeepsData(cfg, s, s', j); }
  }

  lemma WorkKeepsData(cfg: Config, s: State, u: Unit)
    requires DataInv(cfg, s) && BoxInv(cfg, s) && s.Up? && Enabled(cfg, s, Work(u))
    ensures DataInv(cfg, Apply(cfg, s, Work(u)))
  {
    hide StageStep;
    hide Meaning;
    hide Alone;
    hide StepsTo;
    hide FirstDuty;
    hide GroupData, JobData;
    var s' := Apply(cfg, s, Work(u));
    var pc := PcOf(s, u);
    assert UnitData(cfg, s, u);
    OneMoreStep(cfg.env, pc.duty, pc.stage, DiskAt(s, pc.box));
    assert UnitData(cfg, s', u);
    QuietStepKeepsData(cfg, s, s', u);
  }

  /** Taking a box, or initialising it. */
  lemma BoxStepKeepsData(cfg: Config, s: State, a: Action)
    requires DataInv(cfg, s) && BoxInv(cfg, s) && s.Up? && Enabled(cfg, s, a)
    requires a.Receive? || a.Init?
    ensures DataInv(cfg, Apply(cfg, s, a))
  {
    hide Meaning;
    hide Plan;
    hide FirstDuty;
    hide CaseAnswer;
    hide Killed;
    hide GroupData;
    hide JobData;
    var s' := Apply(cfg, s, a);
    assert UnitData(cfg, s, a.u);
    assert UnitData(cfg, s', a.u);
    hide DataInv;
    QuietStepKeepsData(cfg, s, s', a.u);
  }

  /** A command that is killed, or an errgroup slot that becomes free. */
  lemma EndStepKeepsData(cfg: Config, s: State, a: Action)
    requires DataInv(cfg, s) && BoxInv(cfg, s) && s.Up? && Enabled(cfg, s, a)
    requires a.Kill? || a.Exit?
    ensures DataInv(cfg, Apply(cfg, s, a))
  {
    hide Meaning;
    hide Plan;
    hide FirstDuty;
    hide CaseAnswer;
    hide Killed;
    hide GroupData;
    hide JobData;
    var s' := Apply(cfg, s, a);
    assert UnitData(cfg, s, a.u);
    assert UnitData(cfg, s', a.u);
    hide DataInv;
    QuietStepKeepsData(cfg, s, s', a.u);
  }

  lemma ArriveKeepsData(cfg: Config, s: State, k: nat)
    requires DataInv(cfg, s) && BoxInv(cfg, s) && s.Up? && Enabled(cfg, s, Arrive(k))
    ensures DataInv(cfg, Apply(cfg, s, Arrive(k)))
  {
    QuietStepKeepsData(cfg, s, Apply(cfg, s, Arrive(k)), Request(k));
  }

  lemma CompareExists(cfg: Config, s: State, u: Unit)
    requires ShapeInv(cfg, s) && s.Up? && u.Case? && !PcOf(s, u).Idle?
    ensures ValidUnit(cfg, u) && cfg.jobs[u.j].compare.Some?
  {
    assert CursorOk(cfg, s, u) && GroupOk(cfg, s, u.j, u.g) && JobOk(cfg, s, u.j);
  }

  lemma ReleaseFrame(cfg: Config, s: State, u: Unit, left: Box)
    requires s.Up? && Enabled(cfg, s, Release(u, left))
    ensures var s' := Apply(cfg, s, Release(u, left));
            && s'.Up? && s'.groups == s.groups && s'.jobs == s.jobs
            && HasBox(PcOf(s, u)) && PcOf(s, u).InBox? && PcOf(s, u).stage.Over?
            && PcOf(s', u) == AfterBox(cfg, u, PcOf(s, u).duty, PcOf(s, u).stage.outcome)
            && s'.pcs == s.pcs[u := PcOf(s', u)]
            && s'.disk == s.disk[PcOf(s, u).box := DiskAt(s', PcOf(s, u).box)]
  {
    hide AfterBox;
  }

  lemma ReleaseKeepsUnit(cfg: Config, s: State, u: Unit, left: Box)
    requires DataInv(cfg, s) && ShapeInv(cfg, s) && s.Up? && Enabled(cfg, s, Release(u, left))
    ensures ValidUnit(cfg, u) && Apply(cfg, s, Release(u, left)).Up? && UnitData(cfg, Apply(cfg, s, Release(u, left)), u)
  {
    ReleaseFrame(cfg, s, u, left);
    assert ValidUnit(cfg, u);
    assert UnitData(cfg, s, u);
    hide Apply, Enabled, DataInv;
    var s' := Apply(cfg, s, Release(u, left));
    var d, o := PcOf(s, u).duty, PcOf(s, u).stage.outcome;
    if u.Case? {
      CompareExists(cfg, s, u);
      hide ShapeInv;
      AfterBoxData(cfg, s, s', u, d, o);
    }
  }

  lemma ReleaseKeepsData(cfg: Config, s: State, u: Unit, left: Box)
    requires DataInv(cfg, s) && BoxInv(cfg, s) && ShapeInv(cfg, s) && s.Up? && Enabled(cfg, s, Release(u, left))
    ensures DataInv(cfg, Apply(cfg, s, Release(u, left)))
  {
    hide Apply, Enabled, DataInv, BoxInv, ShapeInv, AfterBox, UnitData;
    ReleaseFrame(cfg, s, u, left);
    ReleaseKeepsUnit(cfg, s, u, left);
    AfterBoxIsQuiet(cfg, u, PcOf(s, u).duty, PcOf(s, u).stage.outcome);
    QuietStepKeepsData(cfg, s, Apply(cfg, s, Release(u, left)), u);
  }

  lemma AfterBoxIsQuiet(cfg: Config, u: Unit, d: Duty, o: Outcome)
    requires ValidUnit(cfg, u)
    ensures !Folded(AfterBox(cfg, u, d, o)) && !Failed(AfterBox(cfg, u, d, o))
  {
    hide CaseResult;
  }

  lemma AfterBoxData(cfg: Config, s: State, s': State, u: Unit, d: Duty, o: Outcome)
    requires s.Up? && s'.Up? && u.Case? && ValidUnit(cfg, u) && cfg.jobs[u.j].compare.Some?
    requires DutyOk(cfg, s, u, d) && (!Cancelled(s, u) ==> o == Meaning(cfg.env, d))
    requires Cancelled(s', u) <==> Cancelled(s, u)
    requires PcOf(s', u) == AfterBox(cfg, u, d, o)
    ensures UnitData(cfg, s', u)
  {
    hide CaseResult;
    hide RunTestCase;
    hide CompareOutput;
    hide ProgramOf;
    if !Cancelled(s, u) {
      CaseAnswerFromDuties(cfg, u, d);
    }
    hide CaseAnswer;
  }

  // ---- steps that change a group's variables ------------------------------------------------------

  lemma FoldFrame(cfg: Config, s: State, u: Unit)
    requires s.Up? && Enabled(cfg, s, Fold(u))
    ensures var (s', grp, r) := (Apply(cfg, s, Fold(u)), GroupOf(s, u.j, u.g), PcOf(s, u).result);
            && s'.Up? && PcOf(s', u) == Exiting(true) && JobOf(s', u.j) == JobOf(s, u.j)
            && (forall v :: v != u ==> PcOf(s', v) == PcOf(s, v))
            && GroupOf(s', u.j, u.g) == grp.(order := grp.order + [u.c], results := grp.results + [r],
                                             total := Plus(grp.total, OfCase(r)))
  {
    hide Plus;
    hide OfCase;
  }

  /** The folded cases are those of the order, one more than before. */
  lemma FoldKeepsOrder(cfg: Config, s: State, u: Unit)
    requires DataInv(cfg, s) && s.Up? && Enabled(cfg, s, Fold(u))
    ensures Apply(cfg, s, Fold(u)).Up?
    ensures var order := GroupOf(s, u.j, u.g).order + [u.c];
            && NoDups(order)
            && forall c: nat :: c in order <==>
                                c < |Tcs(cfg, u.j, u.g)| && Folded(PcOf(Apply(cfg, s, Fold(u)), Case(u.j, u.g, c)))
  {
    hide CaseAnswer, JobData, JobFails, Plus, OfCase, Apply, Total, Mapped, UnitData, GroupCancelled;
    FoldFrame(cfg, s, u);
    assert GroupData(cfg, s, u.j, u.g);
    assert u.c !in GroupOf(s, u.j, u.g).order;
  }

  lemma FoldKeepsGroup(cfg: Config, s: State, u: Unit)
    requires DataInv(cfg, s) && s.Up? && Enabled(cfg, s, Fold(u))
    ensures GroupData(cfg, Apply(cfg, s, Fold(u)), u.j, u.g)
  {
    hide CaseAnswer, JobData, JobFails, Plus, OfCase, Apply;
    var s' := Apply(cfg, s, Fold(u));
    var grp, r := GroupOf(s, u.j, u.g), PcOf(s, u).result;
    FoldFrame(cfg, s, u);
    assert UnitData(cfg, s, u) && GroupData(cfg, s, u.j, u.g);
    TotalOneMore(OfCase, grp.results, r);
    FoldKeepsOrder(cfg, s, u);
    hide Total, Mapped, DataInv, UnitData, NoDups;
  }

  lemma FoldKeepsData(cfg: Config, s: State, u: Unit)
    requires DataInv(cfg, s) && BoxInv(cfg, s) && s.Up? && Enabled(cfg, s, Fold(u))
    ensures DataInv(cfg, Apply(cfg, s, Fold(u)))
  {
    hide GroupData;
    hide JobData;
    hide Plus;
    hide OfCase;
    var s' := Apply(cfg, s, Fold(u));
    FoldKeepsGroup(cfg, s, u);
    assert UnitData(cfg, s', u);
    hide UnitData;
    forall v ensures UnitData(cfg, s', v) {
      if v != u { OtherUnitsKeepData(cfg, s, s', u, v); }
    }
    forall j: nat, g: nat | ValidGroup(cfg, j, g) ensures GroupData(cfg, s', j, g) {
      if j != u.j || g != u.g { GroupKeepsData(cfg, s, s', j, g); }
    }
    forall j: nat | j < |cfg.jobs| ensures JobData(cfg, s', j) { JobKeepsData(cfg, s, s', j); }
  }

  lemma FailingUnitFailsJob(cfg: Config, s: State, u: Unit)
    requires DataInv(cfg, s) && ShapeInv(cfg, s) && s.Up? && Enabled(cfg, s, Fail(u))
    ensures JobFails(cfg, u.j)
    ensures !Ended(GroupOf(s, u.j, u.g))
  {
    hide JobFails;
    hide CaseAnswer;
    hide SameAnswer, TallyAt, GroupResultOk, Total, OfCase, Mapped;
    assert UnitData(cfg, s, u) && GroupData(cfg, s, u.j, u.g) && JobData(cfg, s, u.j);
    CompareExists(cfg, s, u);
    if !Cancelled(s, u) { FailingCaseFailsJob(cfg, u); }
    assert CursorOk(cfg, s, u) && GroupOk(cfg, s, u.j, u.g);
  }

  lemma FailKeepsGroup(cfg: Config, s: State, u: Unit)
    requires DataInv(cfg, s) && s.Up? && Enabled(cfg, s, Fail(u)) && JobFails(cfg, u.j)
    ensures GroupData(cfg, Apply(cfg, s, Fail(u)), u.j, u.g)
  {
    hide CaseAnswer;
    hide JobFails;
    hide UnitData;
    hide JobData;
    var s' := Apply(cfg, s, Fail(u));
    assert GroupData(cfg, s, u.j, u.g);
    forall c: nat | c != u.c ensures PcOf(s', Case(u.j, u.g, c)) == PcOf(s, Case(u.j, u.g, c)) {}
    forall c: nat ensures Folded(PcOf(s', Case(u.j, u.g, c))) <==> Folded(PcOf(s, Case(u.j, u.g, c))) {}
  }

  lemma FailKeepsData(cfg: Config, s: State, u: Unit)
    requires DataInv(cfg, s) && BoxInv(cfg, s) && ShapeInv(cfg, s) && s.Up? && Enabled(cfg, s, Fail(u))
    ensures DataInv(cfg, Apply(cfg, s, Fail(u)))
  {
    hide GroupData;
    hide JobData;
    hide JobFails;
    var s' := Apply(cfg, s, Fail(u));
    FailingUnitFailsJob(cfg, s, u);
    FailKeepsGroup(cfg, s, u);
    assert UnitData(cfg, s', u);
    hide UnitData;
    hide ShapeInv;
    hide BoxInv;
    forall v ensures UnitData(cfg, s', v) {
      if v != u { OtherUnitsKeepData(cfg, s, s', u, v); }
    }
    forall j: nat, g: nat | ValidGroup(cfg, j, g) ensures GroupData(cfg, s', j, g) {
      if j != u.j || g != u.g { GroupKeepsData(cfg, s, s', j, g); }
    }
    forall j: nat | j < |cfg.jobs| ensures JobData(cfg, s', j) { JobKeepsData(cfg, s, s', j); }
  }

  lemma LaunchCaseKeepsData(cfg: Config, s: State, j: nat, g: nat)
    requires DataInv(cfg, s) && BoxInv(cfg, s) && ShapeInv(cfg, s) && s.Up? && Enabled(cfg, s, LaunchCase(j, g))
    ensures DataInv(cfg, Apply(cfg, s, LaunchCase(j, g)))
  {
    hide GroupData;
    hide JobData;
    hide FirstDuty;
    var s' := Apply(cfg, s, LaunchCase(j, g));
    var u := Case(j, g, GroupOf(s, j, g).next);
    assert CursorOk(cfg, s, u);
    assert UnitData(cfg, s', u);
    hide UnitData;
    forall v ensures UnitData(cfg, s', v) {
      if v != u { OtherUnitsKeepData(cfg, s, s', u, v); }
    }
    forall j2: nat, g2: nat | ValidGroup(cfg, j2, g2) ensures GroupData(cfg, s', j2, g2) {
      GroupKeepsData(cfg, s, s', j2, g2);
    }
    forall j2: nat | j2 < |cfg.jobs| ensures JobData(cfg, s', j2) { JobKeepsData(cfg, s, s', j2); }
  }

  // ---- steps of a group's or a job's goroutine ----------------------------------------------------

  predicate SameGroupData(a: Group, b: Group) {
    && b.order == a.order && b.results == a.results && b.total == a.total && b.err == a.err
    && (Ended(b) <==> Ended(a))
  }

  predicate SameJobData(a: Job, b: Job) {
    b.order == a.order && b.results == a.results && b.total == a.total && b.err == a.err && b.ret == a.ret
  }

  /** A step that changes nothing but cursors and phases. */
  lemma OthersKeepData(cfg: Config, s: State, s': State)
    requires DataInv(cfg, s) && BoxInv(cfg, s) && s.Up? && s'.Up? && s'.pcs == s.pcs && s'.disk == s.disk
    requires forall j: nat, g: nat :: SameGroupData(GroupOf(s, j, g), GroupOf(s', j, g))
    requires forall j: nat :: SameJobData(JobOf(s, j), JobOf(s', j))
    ensures DataInv(cfg, s')
  {
    hide GroupData;
    hide JobData;
    hide UnitData;
    hide BoxInv;
    assert ErrorsKept(s, s');
    forall v ensures UnitData(cfg, s', v) {
      OtherUnitsKeepData(cfg, s, s', if v == Request(0) then Request(1) else Request(0), v);
    }
    forall j: nat, g: nat | ValidGroup(cfg, j, g) ensures GroupData(cfg, s', j, g) { GroupKeepsData(cfg, s, s', j, g); }
    forall j: nat | j < |cfg.jobs| ensures JobData(cfg, s', j) { JobKeepsData(cfg, s, s', j); }
  }

  lemma LaunchGroupKeepsData(cfg: Config, s: State, j: nat)
    requires DataInv(cfg, s) && BoxInv(cfg, s) && ShapeInv(cfg, s) && s.Up? && Enabled(cfg, s, LaunchGroup(j))
    ensures DataInv(cfg, Apply(cfg, s, LaunchGroup(j)))
  {
    hide DataInv;
    var s' := Apply(cfg, s, LaunchGroup(j));
    assert GroupOk(cfg, s, j, JobOf(s, j).next);
    hide ShapeInv;
    OthersKeepData(cfg, s, s');
  }

  lemma ExitGroupKeepsData(cfg: Config, s: State, j: nat, g: nat)
    requires DataInv(cfg, s) && BoxInv(cfg, s) && s.Up? && Enabled(cfg, s, ExitGroup(j, g))
    ensures DataInv(cfg, Apply(cfg, s, ExitGroup(j, g)))
  {
    hide DataInv;
    OthersKeepData(cfg, s, Apply(cfg, s, ExitGroup(j, g)));
  }

  /** When all cases of an uncancelled group have ended, the group's variables are those of GradeGroup. */
  lemma GroupComplete(cfg: Config, s: State, j: nat, g: nat)
    requires DataInv(cfg, s) && s.Up? && Enabled(cfg, s, FinishGroup(j, g)) && !GroupCancelled(s, j, g)
    ensures var grp := GroupOf(s, j, g);
            var o := OfGroup(cfg.jobs[j].groups[g], grp.results, grp.total);
            GroupResultOk(cfg, j, g, o.result) && TallyAt(cfg, j)(g) == o.tally
  {
    hide GradeCase;
    hide JobData;
    hide JobFails;
    hide Plus, OfCase;
    var grp := GroupOf(s, j, g);
    assert GroupData(cfg, s, j, g);
    var tcs := Tcs(cfg, j, g);
    forall c: nat | c < |tcs| ensures c in grp.order && CaseAnswer(cfg, Case(j, g, c)).Some? {
      assert PcOf(s, Case(j, g, c)).Done?;
      var i :| 0 <= i < |grp.order| && grp.order[i] == c;
    }
    var f := CaseGrader(cfg.env, cfg.jobs[j]);
    forall c | 0 <= c < |tcs| ensures f(tcs[c]) == CaseAnswer(cfg, Case(j, g, c)) && f(tcs[c]).Some? {}
    var rs := Collect(f, tcs).value;
    forall i | 0 <= i < |grp.order| ensures grp.order[i] < |tcs| && grp.results[i] == rs[grp.order[i]] {
      assert grp.order[i] in grp.order;
    }
    VisitedInAnyOrder(grp.order, grp.results, rs);
    MappedPermutation(OfCase, grp.results, rs);
    TotalOfPermutation(Mapped(OfCase, grp.results), Mapped(OfCase, rs));
    assert |multiset(grp.results)| == |multiset(rs)|;
  }

  /** A group that ends with an error passes it on to the job. */
  lemma FailedGroupKeepsJob(cfg: Config, s: State, j: nat, g: nat)
    requires DataInv(cfg, s) && ShapeInv(cfg, s) && s.Up? && Enabled(cfg, s, FinishGroup(j, g)) && GroupOf(s, j, g).err
    ensures JobData(cfg, Apply(cfg, s, FinishGroup(j, g)), j)
  {
    hide UnitData;
    hide GroupResultOk;
    hide TallyAt;
    hide SameAnswer;
    hide JobFails;
    hide CaseAnswer;
    var s' := Apply(cfg, s, FinishGroup(j, g));
    assert GroupData(cfg, s, j, g) && JobData(cfg, s, j);
    NotReturnedYet(cfg, s, j, g);
    forall g2: nat | g2 != g ensures GroupOf(s', j, g2) == GroupOf(s, j, g2) {}
  }

  lemma NotReturnedYet(cfg: Config, s: State, j: nat, g: nat)
    requires ShapeInv(cfg, s) && s.Up? && ValidGroup(cfg, j, g) && GroupOf(s, j, g).phase.Live?
    ensures JobOf(s, j).ret.Running?
  {
    assert JobOk(cfg, s, j) && GroupOk(cfg, s, j, g);
  }

  lemma PassedGroupKeepsJob(cfg: Config, s: State, j: nat, g: nat)
    requires DataInv(cfg, s) && ShapeInv(cfg, s) && s.Up? && Enabled(cfg, s, FinishGroup(j, g)) && !GroupOf(s, j, g).err
    ensures JobData(cfg, Apply(cfg, s, FinishGroup(j, g)), j)
  {
    hide UnitData;
    hide GroupData;
    hide OfGroup;
    hide GroupResultOk;
    hide TallyAt;
    hide SameAnswer;
    hide JobFails;
    hide Plus;
    var s' := Apply(cfg, s, FinishGroup(j, g));
    var grp, job := GroupOf(s, j, g), JobOf(s, j);
    assert JobData(cfg, s, j);
    NotReturnedYet(cfg, s, j, g);
    if !job.err { GroupComplete(cfg, s, j, g); }
    forall g2: nat | g2 != g ensures GroupOf(s', j, g2) == GroupOf(s, j, g2) {}
    assert g !in job.order;
    var ts := Mapped(TallyAt(cfg, j), job.order + [g]);
    assert ts[..|ts| - 1] == Mapped(TallyAt(cfg, j), job.order);
  }

  lemma FinishGroupKeepsData(cfg: Config, s: State, j: nat, g: nat)
    requires DataInv(cfg, s) && BoxInv(cfg, s) && ShapeInv(cfg, s) && s.Up? && Enabled(cfg, s, FinishGroup(j, g))
    ensures DataInv(cfg, Apply(cfg, s, FinishGroup(j, g)))
  {
    hide GroupData;
    hide JobData;
    hide UnitData;
    hide OfGroup;
    hide Plus;
    var s' := Apply(cfg, s, FinishGroup(j, g));
    if GroupOf(s, j, g).err { FailedGroupKeepsJob(cfg, s, j, g); } else { PassedGroupKeepsJob(cfg, s, j, g); }
    forall v ensures UnitData(cfg, s', v) {
      OtherUnitsKeepData(cfg, s, s', if v == Request(0) then Request(1) else Request(0), v);
    }
    forall j2: nat, g2: nat | ValidGroup(cfg, j2, g2) ensures GroupData(cfg, s', j2, g2) {
      GroupKeepsData(cfg, s, s', j2, g2);
    }
    forall j2: nat | j2 < |cfg.jobs| ensures JobData(cfg, s', j2) {
      if j2 != j { JobKeepsData(cfg, s, s', j2); }
    }
  }

  /** When all groups of a job without an error have ended, the job's variables are those of Grade. */
  lemma JobComplete(cfg: Config, s: State, j: nat)
    requires DataInv(cfg, s) && s.Up? && Enabled(cfg, s, FinishJob(j))
    requires cfg.jobs[j].compare.Some? && !JobOf(s, j).err
    ensures SameAnswer(Some(Summary(JobOf(s, j).results, JobOf(s, j).total)), Grade(cfg.env, cfg.jobs[j]))
  {
    hide GradeGroup;
    hide UnitData;
    hide GroupData;
    var job, groups := JobOf(s, j), cfg.jobs[j].groups;
    assert JobData(cfg, s, j);
    forall g: nat | g < |groups| ensures g in job.order && GroupAnswer(cfg, j, g).Some? {
      assert Ended(GroupOf(s, j, g));
      var i :| 0 <= i < |job.order| && job.order[i] == g;
      assert GroupResultOk(cfg, j, job.order[i], job.results[i]);
    }
    var f := GroupGrader(cfg.env, cfg.jobs[j]);
    forall g | 0 <= g < |groups| ensures f(groups[g]) == GroupAnswer(cfg, j, g) && f(groups[g]).Some? {}
    var os := Collect(f, groups).value;
    SummaryOfPermutation(cfg, j, job.order, job.results, job.total, os);
  }

  lemma SummaryOfPermutation(cfg: Config, j: nat, order: seq<nat>, results: seq<TestCaseGroupResult<Float32>>,
                             total: Tally, os: seq<GroupOutcome>)
    requires j < |cfg.jobs| && |results| == |order| && NoDups(order)
    requires forall g :: 0 <= g < |os| ==> GroupAnswer(cfg, j, g) == Some(os[g])
    requires forall g: nat :: g in order <==> g < |os|
    requires forall i :: 0 <= i < |order| ==> GroupResultOk(cfg, j, order[i], results[i])
    requires total == Total(Mapped(TallyAt(cfg, j), order))
    ensures SameGrade(Summary(results, total), Summary(Mapped(ResultOf, os), Total(Mapped(TallyOf, os))))
  {
    hide GroupAnswer;
    var shown, expected := Mapped(AnyOrder, results), Mapped(AnyOrder, Mapped(ResultOf, os));
    forall i | 0 <= i < |order| ensures order[i] < |os| && shown[i] == expected[order[i]] {
      assert order[i] in order;
      assert GroupResultOk(cfg, j, order[i], results[i]);
    }
    VisitedInAnyOrder(order, shown, expected);
    MappedPermutation(TallyAt(cfg, j), order, UpTo(|os|));
    assert Mapped(TallyAt(cfg, j), UpTo(|os|)) == Mapped(TallyOf, os);
    TotalOfPermutation(Mapped(TallyAt(cfg, j), order), Mapped(TallyOf, os));
  }

  lemma FinishJobKeepsData(cfg: Config, s: State, j: nat)
    requires DataInv(cfg, s) && BoxInv(cfg, s) && s.Up? && Enabled(cfg, s, FinishJob(j))
    ensures DataInv(cfg, Apply(cfg, s, FinishJob(j)))
  {
    hide GroupData;
    hide UnitData;
    var s' := Apply(cfg, s, FinishJob(j));
    forall v ensures UnitData(cfg, s', v) {
      OtherUnitsKeepData(cfg, s, s', if v == Request(0) then Request(1) else Request(0), v);
    }
    forall j2: nat, g2: nat | ValidGroup(cfg, j2, g2) ensures GroupData(cfg, s', j2, g2) {
      GroupKeepsData(cfg, s, s', j2, g2);
    }
    forall j2: nat | j2 < |cfg.jobs| ensures JobData(cfg, s', j2) {
      if j2 != j {
        JobKeepsData(cfg, s, s', j2);
      } else {
        FinishJobAnswer(cfg, s, j);
      }
    }
  }

  lemma FinishJobAnswer(cfg: Config, s: State, j: nat)
    requires DataInv(cfg, s) && s.Up? && Enabled(cfg, s, FinishJob(j))
    ensures JobData(cfg, Apply(cfg, s, FinishJob(j)), j)
  {
    hide UnitData;
    hide GroupData;
    hide GroupResultOk;
    hide TallyAt;
    hide Summary;
    hide SameAnswer;
    var s' := Apply(cfg, s, FinishJob(j));
    assert JobData(cfg, s, j);
    ReturnedAnswer(cfg, s, j);
    hide JobFails;
    forall g: nat ensures GroupOf(s', j, g) == GroupOf(s, j, g) {}
  }

  lemma ReturnedAnswer(cfg: Config, s: State, j: nat)
    requires DataInv(cfg, s) && s.Up? && Enabled(cfg, s, FinishJob(j))
    ensures SameAnswer(JobOf(Apply(cfg, s, FinishJob(j)), j).ret.result, Grade(cfg.env, cfg.jobs[j]))
  {
    hide UnitData;
    hide GroupData;
    hide GroupResultOk;
    hide TallyAt;
    hide Summary;
    assert JobData(cfg, s, j);
    if cfg.jobs[j].compare.Some? && !JobOf(s, j).err { JobComplete(cfg, s, j); }
  }

  lemma StepKeepsData(cfg: Config, s: State, a: Action)
    requires DataInv(cfg, s) && BoxInv(cfg, s) && ShapeInv(cfg, s) && s.Up? && Enabled(cfg, s, a)
    ensures DataInv(cfg, Apply(cfg, s, a))
  {
    match a
    case Arrive(k) => ArriveKeepsData(cfg, s, k);
    case LaunchGroup(j) => LaunchGroupKeepsData(cfg, s, j);
    case LaunchCase(j, g) => LaunchCaseKeepsData(cfg, s, j, g);
    case Receive(_) => BoxStepKeepsData(cfg, s, a);
    case Init(_) => BoxStepKeepsData(cfg, s, a);
    case InitFails(_) =>
    case Work(u) => WorkKeepsData(cfg, s, u);
    case Kill(_, _, _) => EndStepKeepsData(cfg, s, a);
    case Release(u, left) => ReleaseKeepsData(cfg, s, u, left);
    case CleanupFails(_) =>
    case Fold(u) => FoldKeepsData(cfg, s, u);
    case Fail(u) => FailKeepsData(cfg, s, u);
    case Exit(_) => EndStepKeepsData(cfg, s, a);
    case FinishGroup(j, g) => FinishGroupKeepsData(cfg, s, j, g);
    case ExitGroup(j, g) => ExitGroupKeepsData(cfg, s, j, g);
    case FinishJob(j) => FinishJobKeepsData(cfg, s, j);
  }
}
