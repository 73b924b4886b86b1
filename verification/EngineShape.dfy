/** Which goroutines exist when: launch cursors, the limits on fan-out, and what has ended when Grade returns. */
module EngineShape {
  import opened Sandbox
  import opened GradeSpec
  import opened BoxWork
  import opened Engine
  import opened Sequences

  /** Cases are launched in order, and only by a launched group. */
  ghost predicate CursorOk(cfg: Config, s: State, u: Unit)
    requires s.Up?
  {
    match u
    case Case(j, g, c) => !PcOf(s, u).Idle? <==> ValidUnit(cfg, u) && c < GroupOf(s, j, g).next
    case Request(k) => !PcOf(s, u).Idle? ==> ValidUnit(cfg, u)
  }

  /** A unit's program counter fits its kind. */
  ghost predicate KindOk(cfg: Config, s: State, u: Unit)
    requires s.Up?
  {
    var pc := PcOf(s, u);
    match u
    case Case(j, _, _) => !pc.Replied?
    case Request(_) => pc.Idle? || pc.Waiting? || pc.Acquired? || pc.InBox? || pc.Replied?
  }

  ghost predicate GroupOk(cfg: Config, s: State, j: nat, g: nat)
    requires s.Up?
  {
    var grp := GroupOf(s, j, g);
    && (!grp.phase.NotLaunched? <==> ValidGroup(cfg, j, g) && g < JobOf(s, j).next)
    && (grp.phase.NotLaunched? ==> grp == NewGroup)
    && (ValidGroup(cfg, j, g) ==> grp.next <= |Tcs(cfg, j, g)| && |LiveCases(cfg, s, j, g)| <= cfg.GradePoolSize())
    && (grp.phase.Leaving? || grp.phase.Left? ==>
          grp.next == |Tcs(cfg, j, g)| && forall c: nat :: c < grp.next ==> PcOf(s, Case(j, g, c)).Done?)
  }

  ghost predicate JobOk(cfg: Config, s: State, j: nat)
    requires s.Up?
  {
    var job := JobOf(s, j);
    && (job.next > 0 || job.ret.Returned? ==> j < |cfg.jobs|)
    && (j < |cfg.jobs| ==>
          && job.next <= |cfg.jobs[j].groups|
          && (job.next > 0 ==> cfg.jobs[j].compare.Some?)
          && |LiveGroups(cfg, s, j)| <= GRADE_GROUP_CONCURRENCY
          && (job.ret.Returned? && cfg.jobs[j].compare.Some? ==>
                job.next == |cfg.jobs[j].groups| && forall g: nat :: g < job.next ==> GroupOf(s, j, g).phase.Left?))
  }

  ghost predicate ShapeInv(cfg: Config, s: State) {
    s.Up? ==>
      && (forall u :: CursorOk(cfg, s, u) && KindOk(cfg, s, u))
      && (forall j: nat, g: nat :: GroupOk(cfg, s, j, g))
      && (forall j: nat :: JobOk(cfg, s, j))
  }

  lemma InitialShape(cfg: Config, s: State)
    requires Initial(cfg, s)
    ensures ShapeInv(cfg, s)
  {
    assert GroupOf(s, 0, 0) == NewGroup;
    forall j: nat, g: nat ensures GroupOk(cfg, s, j, g) {
      if ValidGroup(cfg, j, g) { assert LiveCases(cfg, s, j, g) == {}; }
    }
    forall j: nat ensures JobOk(cfg, s, j) {
      if j < |cfg.jobs| { assert LiveGroups(cfg, s, j) == {}; }
    }
  }

  /** A step of unit u alone that neither launches nor ends a goroutine, nor ends one twice. */
  lemma UnitStepKeepsShape(cfg: Config, s: State, s': State, u: Unit)
    requires ShapeInv(cfg, s) && s.Up? && s'.Up? && ValidUnit(cfg, u)
    requires s'.pcs == s.pcs[u := PcOf(s', u)] && s'.jobs == s.jobs
    requires s'.groups == s.groups || (u.Case? && s'.groups == s.groups[(u.j, u.g) := GroupOf(s', u.j, u.g)])
    requires u.Case? ==> GroupOf(s', u.j, u.g).phase == GroupOf(s, u.j, u.g).phase
                         && GroupOf(s', u.j, u.g).next == GroupOf(s, u.j, u.g).next
    requires KindOk(cfg, s', u) && !PcOf(s', u).Idle?
    requires u.Case? ==> Alive(PcOf(s, u))
    ensures ShapeInv(cfg, s')
  {
    forall j: nat, g: nat
      ensures GroupOf(s', j, g).phase == GroupOf(s, j, g).phase && GroupOf(s', j, g).next == GroupOf(s, j, g).next {}
    forall v ensures CursorOk(cfg, s', v) && KindOk(cfg, s', v) {
      assert CursorOk(cfg, s, v) && KindOk(cfg, s, v);
      if v.Case? { assert GroupOf(s', v.j, v.g).next == GroupOf(s, v.j, v.g).next; }
    }
    forall j: nat, g: nat ensures GroupOk(cfg, s', j, g) {
      assert GroupOk(cfg, s, j, g);
      if ValidGroup(cfg, j, g) {
        assert LiveCases(cfg, s', j, g) <= LiveCases(cfg, s, j, g);
        SubsetSize(LiveCases(cfg, s', j, g), LiveCases(cfg, s, j, g));
      }
    }
    forall j: nat ensures JobOk(cfg, s', j) {
      assert JobOk(cfg, s, j);
      if j < |cfg.jobs| { assert LiveGroups(cfg, s', j) == LiveGroups(cfg, s, j); }
    }
  }

  lemma LaunchGroupKeepsGroups(cfg: Config, s: State, j: nat, j2: nat, g2: nat)
    requires ShapeInv(cfg, s) && s.Up? && Enabled(cfg, s, LaunchGroup(j))
    ensures GroupOk(cfg, Apply(cfg, s, LaunchGroup(j)), j2, g2)
  {
    hide Alive, CursorOk, KindOk;
    var s' := Apply(cfg, s, LaunchGroup(j));
    assert GroupOk(cfg, s, j, JobOf(s, j).next) && JobOk(cfg, s, j);
    hide JobOk;
    assert GroupOk(cfg, s, j2, g2);
    if ValidGroup(cfg, j2, g2) { assert LiveCases(cfg, s', j2, g2) == LiveCases(cfg, s, j2, g2); }
  }

  lemma LaunchGroupKeepsJobs(cfg: Config, s: State, j: nat, j2: nat)
    requires ShapeInv(cfg, s) && s.Up? && Enabled(cfg, s, LaunchGroup(j))
    ensures JobOk(cfg, Apply(cfg, s, LaunchGroup(j)), j2)
  {
    hide CursorOk, KindOk;
    var s' := Apply(cfg, s, LaunchGroup(j));
    var g := JobOf(s, j).next;
    assert GroupOk(cfg, s, j, g) && JobOk(cfg, s, j2);
    hide GroupOk;
    if j2 == j {
      assert LiveGroups(cfg, s', j) == LiveGroups(cfg, s, j) + {g};
    } else {
      forall g2: nat ensures GroupOf(s', j2, g2) == GroupOf(s, j2, g2) {}
      if j2 < |cfg.jobs| { assert LiveGroups(cfg, s', j2) == LiveGroups(cfg, s, j2); }
    }
  }

  lemma LaunchGroupKeepsShape(cfg: Config, s: State, j: nat)
    requires ShapeInv(cfg, s) && s.Up? && Enabled(cfg, s, LaunchGroup(j))
    ensures ShapeInv(cfg, Apply(cfg, s, LaunchGroup(j)))
  {
    hide GroupOk, JobOk;
    var s' := Apply(cfg, s, LaunchGroup(j));
    var g := JobOf(s, j).next;
    assert GroupOf(s, j, g).next == 0 by { NotLaunchedYet(cfg, s, j); }
    forall v ensures CursorOk(cfg, s', v) && KindOk(cfg, s', v) {
      assert CursorOk(cfg, s, v) && KindOk(cfg, s, v);
    }
    forall j2: nat, g2: nat ensures GroupOk(cfg, s', j2, g2) { LaunchGroupKeepsGroups(cfg, s, j, j2, g2); }
    forall j2: nat ensures JobOk(cfg, s', j2) { LaunchGroupKeepsJobs(cfg, s, j, j2); }
  }

  lemma NotLaunchedYet(cfg: Config, s: State, j: nat)
    requires ShapeInv(cfg, s) && s.Up? && j < |cfg.jobs|
    ensures GroupOf(s, j, JobOf(s, j).next) == NewGroup
  {
    assert GroupOk(cfg, s, j, JobOf(s, j).next);
  }

  lemma LaunchCaseKeepsUnits(cfg: Config, s: State, j: nat, g: nat)
    requires ShapeInv(cfg, s) && s.Up? && Enabled(cfg, s, LaunchCase(j, g))
    ensures PcOf(s, Case(j, g, GroupOf(s, j, g).next)).Idle?
    ensures forall v :: CursorOk(cfg, Apply(cfg, s, LaunchCase(j, g)), v) && KindOk(cfg, Apply(cfg, s, LaunchCase(j, g)), v)
  {
    hide FirstDuty;
    hide GroupOk;
    hide JobOk;
    var s' := Apply(cfg, s, LaunchCase(j, g));
    var u := Case(j, g, GroupOf(s, j, g).next);
    assert CursorOk(cfg, s, u);
    forall v ensures CursorOk(cfg, s', v) && KindOk(cfg, s', v) {
      assert CursorOk(cfg, s, v) && KindOk(cfg, s, v);
    }
  }

  lemma LaunchCaseKeepsGroups(cfg: Config, s: State, j: nat, g: nat, j2: nat, g2: nat)
    requires ShapeInv(cfg, s) && s.Up? && Enabled(cfg, s, LaunchCase(j, g))
    ensures GroupOk(cfg, Apply(cfg, s, LaunchCase(j, g)), j2, g2)
  {
    hide FirstDuty;
    var s' := Apply(cfg, s, LaunchCase(j, g));
    assert GroupOk(cfg, s, j2, g2);
    if j2 == j && g2 == g {
      var c := GroupOf(s, j, g).next;
      assert LiveCases(cfg, s', j, g) <= LiveCases(cfg, s, j, g) + {c};
      SubsetSize(LiveCases(cfg, s', j, g), LiveCases(cfg, s, j, g) + {c});
    } else {
      forall c: nat ensures PcOf(s', Case(j2, g2, c)) == PcOf(s, Case(j2, g2, c)) {}
      if ValidGroup(cfg, j2, g2) { assert LiveCases(cfg, s', j2, g2) == LiveCases(cfg, s, j2, g2); }
    }
  }

  lemma LaunchCaseKeepsShape(cfg: Config, s: State, j: nat, g: nat)
    requires ShapeInv(cfg, s) && s.Up? && Enabled(cfg, s, LaunchCase(j, g))
    ensures PcOf(s, Case(j, g, GroupOf(s, j, g).next)).Idle?
    ensures ShapeInv(cfg, Apply(cfg, s, LaunchCase(j, g)))
  {
    hide FirstDuty;
    hide CursorOk;
    hide KindOk;
    hide GroupOk;
    var s' := Apply(cfg, s, LaunchCase(j, g));
    LaunchCaseKeepsUnits(cfg, s, j, g);
    forall j2: nat, g2: nat ensures GroupOk(cfg, s', j2, g2) { LaunchCaseKeepsGroups(cfg, s, j, g, j2, g2); }
    forall j2: nat ensures JobOk(cfg, s', j2) {
      assert JobOk(cfg, s, j2);
      forall g2: nat ensures GroupOf(s', j2, g2).phase == GroupOf(s, j2, g2).phase {}
      if j2 < |cfg.jobs| { assert LiveGroups(cfg, s', j2) == LiveGroups(cfg, s, j2); }
    }
  }

  /** A group's goroutine whose cases have all ended moves on. */
  lemma GroupEndKeepsShape(cfg: Config, s: State, s': State, j: nat, g: nat)
    requires ShapeInv(cfg, s) && s.Up? && s'.Up? && ValidGroup(cfg, j, g)
    requires s'.pcs == s.pcs && s'.groups == s.groups[(j, g) := GroupOf(s', j, g)]
    requires forall j2: nat :: JobOf(s', j2).next == JobOf(s, j2).next && JobOf(s', j2).ret == JobOf(s, j2).ret
    requires GroupAlive(GroupOf(s, j, g)) && Ending(GroupOf(s', j, g).phase)
    requires GroupOf(s', j, g).next == GroupOf(s, j, g).next == |Tcs(cfg, j, g)|
    requires forall c: nat :: c < |Tcs(cfg, j, g)| ==> PcOf(s, Case(j, g, c)).Done?
    ensures ShapeInv(cfg, s')
  {
    forall v ensures CursorOk(cfg, s', v) && KindOk(cfg, s', v) {
      assert CursorOk(cfg, s, v) && KindOk(cfg, s, v);
    }
    forall j2: nat, g2: nat ensures GroupOk(cfg, s', j2, g2) {
      assert GroupOk(cfg, s, j2, g2);
      if ValidGroup(cfg, j2, g2) { assert LiveCases(cfg, s', j2, g2) == LiveCases(cfg, s, j2, g2); }
    }
    forall j2: nat ensures JobOk(cfg, s', j2) {
      assert JobOk(cfg, s, j2);
      forall g2: nat | GroupOf(s, j2, g2).phase.Left? ensures GroupOf(s', j2, g2).phase.Left? {}
      if j2 < |cfg.jobs| {
        assert LiveGroups(cfg, s', j2) <= LiveGroups(cfg, s, j2);
        SubsetSize(LiveGroups(cfg, s', j2), LiveGroups(cfg, s, j2));
      }
    }
  }

  predicate Ending(p: Phase) { p.Leaving? || p.Left? }

  lemma JobEndKeepsShape(cfg: Config, s: State, s': State, j: nat)
    requires ShapeInv(cfg, s) && s.Up? && s'.Up? && j < |cfg.jobs|
    requires s'.pcs == s.pcs && s'.groups == s.groups && s'.jobs == s.jobs[j := JobOf(s', j)]
    requires JobOf(s', j).next == JobOf(s, j).next
    requires cfg.jobs[j].compare.Some? ==>
               JobOf(s, j).next == |cfg.jobs[j].groups|
               && forall g: nat :: g < |cfg.jobs[j].groups| ==> GroupOf(s, j, g).phase.Left?
    ensures ShapeInv(cfg, s')
  {
    forall v ensures CursorOk(cfg, s', v) && KindOk(cfg, s', v) {
      assert CursorOk(cfg, s, v) && KindOk(cfg, s, v);
    }
    forall j2: nat, g2: nat ensures GroupOk(cfg, s', j2, g2) {
      assert GroupOk(cfg, s, j2, g2);
      if ValidGroup(cfg, j2, g2) { assert LiveCases(cfg, s', j2, g2) == LiveCases(cfg, s, j2, g2); }
    }
    forall j2: nat ensures JobOk(cfg, s', j2) {
      assert JobOk(cfg, s, j2);
      forall g2: nat ensures GroupOf(s', j2, g2) == GroupOf(s, j2, g2) {}
      if j2 < |cfg.jobs| { assert LiveGroups(cfg, s', j2) == LiveGroups(cfg, s, j2); }
    }
  }

  /** A step of a case or request that has been launched. */
  lemma LaunchedStepKeepsShape(cfg: Config, s: State, a: Action)
    requires ShapeInv(cfg, s) && s.Up? && Enabled(cfg, s, a)
    requires a.Receive? || a.Init? || a.Work? || a.Kill? || a.Fold? || a.Fail? || a.Exit?
    ensures ShapeInv(cfg, Apply(cfg, s, a))
  {
    hide ShapeInv;
    hide StageStep;
    hide OfCase;
    hide Plus;
    UnitKind(cfg, s, a.u);
    UnitStepKeepsShape(cfg, s, Apply(cfg, s, a), a.u);
  }

  lemma ReleaseKeepsShape(cfg: Config, s: State, u: Unit, left: Box)
    requires ShapeInv(cfg, s) && s.Up? && Enabled(cfg, s, Release(u, left))
    ensures ShapeInv(cfg, Apply(cfg, s, Release(u, left)))
  {
    hide ShapeInv;
    hide CaseResult;
    UnitKind(cfg, s, u);
    UnitStepKeepsShape(cfg, s, Apply(cfg, s, Release(u, left)), u);
  }

  lemma GroupStepKeepsShape(cfg: Config, s: State, a: Action)
    requires ShapeInv(cfg, s) && s.Up? && Enabled(cfg, s, a) && (a.FinishGroup? || a.ExitGroup?)
    ensures ShapeInv(cfg, Apply(cfg, s, a))
  {
    hide ShapeInv, Plus, OfGroup;
    GroupAt(cfg, s, a.j, a.g);
    GroupEndKeepsShape(cfg, s, Apply(cfg, s, a), a.j, a.g);
  }

  lemma FinishJobKeepsShape(cfg: Config, s: State, j: nat)
    requires ShapeInv(cfg, s) && s.Up? && Enabled(cfg, s, FinishJob(j))
    ensures ShapeInv(cfg, Apply(cfg, s, FinishJob(j)))
  {
    hide ShapeInv, Summary;
    JobEndKeepsShape(cfg, s, Apply(cfg, s, FinishJob(j)), j);
  }

  lemma ArriveKeepsShape(cfg: Config, s: State, k: nat)
    requires ShapeInv(cfg, s) && s.Up? && Enabled(cfg, s, Arrive(k))
    ensures ShapeInv(cfg, Apply(cfg, s, Arrive(k)))
  {
    hide ShapeInv, FirstDuty;
    UnitStepKeepsShape(cfg, s, Apply(cfg, s, Arrive(k)), Request(k));
  }

  lemma CrashStepKeepsShape(cfg: Config, s: State, a: Action)
    requires s.Up? && Enabled(cfg, s, a) && (a.InitFails? || a.CleanupFails?)
    ensures ShapeInv(cfg, Apply(cfg, s, a))
  {
    hide ShapeInv;
    CrashKeepsShape(cfg);
  }

  lemma StepKeepsShape(cfg: Config, s: State, a: Action)
    requires ShapeInv(cfg, s) && s.Up? && Enabled(cfg, s, a)
    ensures a.LaunchCase? ==> PcOf(s, Case(a.j, a.g, GroupOf(s, a.j, a.g).next)).Idle?
    ensures ShapeInv(cfg, Apply(cfg, s, a))
  {
    hide ShapeInv, Apply, Enabled;
    match a
    case LaunchGroup(j) => LaunchGroupKeepsShape(cfg, s, j);
    case LaunchCase(j, g) => LaunchCaseKeepsShape(cfg, s, j, g);
    case Release(u, left) => ReleaseKeepsShape(cfg, s, u, left);
    case Receive(_) => LaunchedStepKeepsShape(cfg, s, a);
    case Init(_) => LaunchedStepKeepsShape(cfg, s, a);
    case Work(_) => LaunchedStepKeepsShape(cfg, s, a);
    case Kill(_, _, _) => LaunchedStepKeepsShape(cfg, s, a);
    case Fold(_) => LaunchedStepKeepsShape(cfg, s, a);
    case Fail(_) => LaunchedStepKeepsShape(cfg, s, a);
    case Exit(_) => LaunchedStepKeepsShape(cfg, s, a);
    case Arrive(k) => ArriveKeepsShape(cfg, s, k);
    case FinishGroup(_, _) => GroupStepKeepsShape(cfg, s, a);
    case ExitGroup(_, _) => GroupStepKeepsShape(cfg, s, a);
    case FinishJob(j) => FinishJobKeepsShape(cfg, s, j);
    case InitFails(_) => CrashStepKeepsShape(cfg, s, a);
    case CleanupFails(_) => CrashStepKeepsShape(cfg, s, a);
  }

  lemma GroupAt(cfg: Config, s: State, j: nat, g: nat)
    requires ShapeInv(cfg, s) && s.Up?
    ensures GroupOk(cfg, s, j, g)
  {
  }

  lemma UnitKind(cfg: Config, s: State, u: Unit)
    requires ShapeInv(cfg, s) && s.Up?
    ensures KindOk(cfg, s, u)
  {
  }

  lemma CrashKeepsShape(cfg: Config)
    ensures ShapeInv(cfg, Crashed)
  {
  }
}
