/** No interleaving gets stuck, none goes on forever, and nothing is left over when Grade returns. */
module EngineProgress {
  import opened Models
  import opened Sandbox
  import opened GradeSpec
  import opened BoxWork
  import opened Engine
  import opened EnginePool
  import opened EngineShape

  // ---- deadlock freedom ---------------------------------------------------------------------------

  /** Grading this job takes boxes of the grade pool. */
  predicate NeedsBoxes(job: JobSpec) {
    job.compare.Some? && exists g :: 0 <= g < |job.groups| && job.groups[g].testCases != []
  }

  /** There are boxes in the pools that are used. The configuration's checks do not ensure this. */
  predicate Served(cfg: Config) {
    && (cfg.gradeAmount >= 1 || forall j :: 0 <= j < |cfg.jobs| ==> !NeedsBoxes(cfg.jobs[j]))
    && (cfg.runAmount >= 1 || cfg.requests == [])
  }

  /** The process exits only where a cleanup fails or where a cancelled context makes an init fail. */
  ghost predicate CanGoOn(cfg: Config, s: State, a: Action)
    requires s.Up?
  {
    Enabled(cfg, s, a) && !a.CleanupFails? && (a.InitFails? ==> Cancelled(s, a.u))
  }

  lemma HolderCanGoOn(cfg: Config, s: State, u: Unit) returns (a: Action)
    requires BoxInv(cfg, s) && s.Up? && HasBox(PcOf(s, u))
    ensures CanGoOn(cfg, s, a)
  {
    match PcOf(s, u)
    case Acquired(_, _) => a := if Cancelled(s, u) then InitFails(u) else Init(u);
    case InBox(_, _, stage) => a := if stage.Over? then Release(u, FRESH) else Work(u);
  }

  /** A waiting goroutine holds no box, so whoever it waits for can go on. */
  lemma UnitCanGoOn(cfg: Config, s: State, u: Unit) returns (a: Action)
    requires BoxInv(cfg, s) && ShapeInv(cfg, s) && s.Up?
    requires ValidUnit(cfg, u) && Alive(PcOf(s, u)) && !PcOf(s, u).Replied?
    requires BoxIds(cfg, KindOf(u)) != []
    ensures CanGoOn(cfg, s, a)
  {
    assert KindOk(cfg, s, u);
    match PcOf(s, u)
    case Waiting(_) =>
      if Free(s, KindOf(u)) != [] {
        a := Receive(u);
      } else {
        var b := BoxIds(cfg, KindOf(u))[0];
        assert NoneLost(cfg, s, KindOf(u)) && b in BoxIds(cfg, KindOf(u));
        var v :| KindOf(v) == KindOf(u) && Holds(s, v, b);
        a := HolderCanGoOn(cfg, s, v);
      }
    case Folding(_) => a := Fold(u);
    case Failing => a := Fail(u);
    case Exiting(_) => a := Exit(u);
    case _ => a := HolderCanGoOn(cfg, s, u);
  }

  lemma GroupCanGoOn(cfg: Config, s: State, j: nat, g: nat) returns (a: Action)
    requires BoxInv(cfg, s) && ShapeInv(cfg, s) && s.Up?
    requires ValidGroup(cfg, j, g) && GroupAlive(GroupOf(s, j, g)) && (cfg.gradeAmount >= 1 || Tcs(cfg, j, g) == [])
    ensures CanGoOn(cfg, s, a)
  {
    var grp := GroupOf(s, j, g);
    assert GroupOk(cfg, s, j, g);
    if grp.phase.Leaving? {
      a := ExitGroup(j, g);
    } else if LiveCases(cfg, s, j, g) != {} {
      var c :| c in LiveCases(cfg, s, j, g);
      assert KindOk(cfg, s, Case(j, g, c));
      a := UnitCanGoOn(cfg, s, Case(j, g, c));
    } else if grp.next < |Tcs(cfg, j, g)| {
      a := LaunchCase(j, g);
    } else {
      forall c: nat | c < |Tcs(cfg, j, g)| ensures PcOf(s, Case(j, g, c)).Done? {
        assert CursorOk(cfg, s, Case(j, g, c)) && c !in LiveCases(cfg, s, j, g);
      }
      a := FinishGroup(j, g);
    }
  }

  lemma JobCanGoOn(cfg: Config, s: State, j: nat) returns (a: Action)
    requires BoxInv(cfg, s) && ShapeInv(cfg, s) && s.Up?
    requires j < |cfg.jobs| && JobOf(s, j).ret.Running? && (cfg.gradeAmount >= 1 || !NeedsBoxes(cfg.jobs[j]))
    ensures CanGoOn(cfg, s, a)
  {
    assert JobOk(cfg, s, j);
    if cfg.jobs[j].compare.None? {
      a := FinishJob(j);
    } else if LiveGroups(cfg, s, j) != {} {
      var g :| g in LiveGroups(cfg, s, j);
      a := GroupCanGoOn(cfg, s, j, g);
    } else if JobOf(s, j).next < |cfg.jobs[j].groups| {
      a := LaunchGroup(j);
    } else {
      forall g: nat | g < |cfg.jobs[j].groups| ensures GroupOf(s, j, g).phase.Left? {
        assert GroupOk(cfg, s, j, g) && g !in LiveGroups(cfg, s, j);
      }
      a := FinishJob(j);
    }
  }

  /** With boxes in the pools that are used, some step is possible until every call has returned. */
  lemma NoDeadlock(cfg: Config, s: State) returns (a: Action)
    requires BoxInv(cfg, s) && ShapeInv(cfg, s) && s.Up?
    requires Served(cfg)
    requires !AllReturned(cfg, s)
    ensures CanGoOn(cfg, s, a)
  {
    if j: nat :| j < |cfg.jobs| && JobOf(s, j).ret.Running? {
      a := JobCanGoOn(cfg, s, j);
    } else {
      var k: nat :| k < |cfg.requests| && !PcOf(s, Request(k)).Replied?;
      assert KindOk(cfg, s, Request(k));
      if PcOf(s, Request(k)).Idle? {
        a := Arrive(k);
      } else {
        a := UnitCanGoOn(cfg, s, Request(k));
      }
    }
  }

  // ---- termination --------------------------------------------------------------------------------

  datatype Item = OfUnit(u: Unit) | OfGroupAt(j: nat, g: nat) | OfJob(n: nat)

  function FilesOf(cfg: Config, u: Unit): seq<File>
    requires ValidUnit(cfg, u)
  {
    FirstDuty(cfg, u).prog.files
  }

  function WorkAfter(d: Duty): nat { if d.Compare? then 4 else 15 }

  /** An upper bound on the steps a unit still takes. */
  function UnitWork(cfg: Config, u: Unit, pc: Pc): nat
    requires ValidUnit(cfg, u)
  {
    match pc
    case Idle => 30 + |FilesOf(cfg, u)|
    case Waiting(d) => WorkAfter(d) + |Plan(cfg.env, d)| + 6
    case Acquired(d, _) => WorkAfter(d) + |Plan(cfg.env, d)| + 5
    case InBox(d, _, st) =>
      var steps := StepsTo(cfg.env, d, st);
      WorkAfter(d) + 1 + if steps <= |Plan(cfg.env, d)| + 3 then |Plan(cfg.env, d)| + 3 - steps else 0
    case Folding(_) => 3
    case Failing => 3
    case Exiting(_) => 2
    case Done(_) => 1
    case Replied(_) => 1
  }

  function PhaseWork(p: Phase): nat {
    match p case NotLaunched => 3 case Live => 2 case Leaving => 1 case Left => 0
  }

  predicate ValidItem(cfg: Config, x: Item) {
    match x
    case OfUnit(u) => ValidUnit(cfg, u)
    case OfGroupAt(j, g) => ValidGroup(cfg, j, g)
    case OfJob(j) => j < |cfg.jobs|
  }

  function ItemWork(cfg: Config, s: State, x: Item): nat
    requires s.Up? && ValidItem(cfg, x)
  {
    match x
    case OfUnit(u) => UnitWork(cfg, u, PcOf(s, u))
    case OfGroupAt(j, g) => PhaseWork(GroupOf(s, j, g).phase)
    case OfJob(j) => if JobOf(s, j).ret.Running? then 1 else 0
  }

  function CasesWork(cfg: Config, s: State, j: nat, g: nat, n: nat): nat
    requires s.Up? && ValidGroup(cfg, j, g) && n <= |Tcs(cfg, j, g)|
  {
    if n == 0 then 0 else CasesWork(cfg, s, j, g, n - 1) + ItemWork(cfg, s, OfUnit(Case(j, g, n - 1)))
  }

  function GroupsWork(cfg: Config, s: State, j: nat, n: nat): nat
    requires s.Up? && j < |cfg.jobs| && n <= |cfg.jobs[j].groups|
  {
    if n == 0 then 0
    else GroupsWork(cfg, s, j, n - 1) + ItemWork(cfg, s, OfGroupAt(j, n - 1))
         + CasesWork(cfg, s, j, n - 1, |Tcs(cfg, j, n - 1)|)
  }

  function JobsWork(cfg: Config, s: State, n: nat): nat
    requires s.Up? && n <= |cfg.jobs|
  {
    if n == 0 then 0
    else JobsWork(cfg, s, n - 1) + ItemWork(cfg, s, OfJob(n - 1)) + GroupsWork(cfg, s, n - 1, |cfg.jobs[n - 1].groups|)
  }

  function RequestsWork(cfg: Config, s: State, n: nat): nat
    requires s.Up? && n <= |cfg.requests|
  {
    if n == 0 then 0 else RequestsWork(cfg, s, n - 1) + ItemWork(cfg, s, OfUnit(Request(n - 1)))
  }

  /** The steps that can still be taken: unlaunched groups and cases, and what the launched ones have left. */
  function WorkLeft(cfg: Config, s: State): nat
    requires s.Up?
  {
    JobsWork(cfg, s, |cfg.jobs|) + RequestsWork(cfg, s, |cfg.requests|)
  }

  ghost predicate NoMoreWork(cfg: Config, s: State, s': State)
    requires s.Up? && s'.Up?
  {
    forall x :: ValidItem(cfg, x) ==> ItemWork(cfg, s', x) <= ItemWork(cfg, s, x)
  }

  ghost predicate LessWork(cfg: Config, s: State, s': State, x: Item)
    requires s.Up? && s'.Up?
  {
    ValidItem(cfg, x) && ItemWork(cfg, s', x) < ItemWork(cfg, s, x)
  }

  lemma {:induction false} LessInCases(cfg: Config, s: State, s': State, x: Item, j: nat, g: nat, n: nat)
    requires s.Up? && s'.Up? && ValidGroup(cfg, j, g) && n <= |Tcs(cfg, j, g)|
    requires NoMoreWork(cfg, s, s') && LessWork(cfg, s, s', x)
    ensures CasesWork(cfg, s', j, g, n) <= CasesWork(cfg, s, j, g, n)
    ensures x.OfUnit? && x.u.Case? && x.u.j == j && x.u.g == g && x.u.c < n
            ==> CasesWork(cfg, s', j, g, n) < CasesWork(cfg, s, j, g, n)
  {
    hide ItemWork;
    if n > 0 {
      LessInCases(cfg, s, s', x, j, g, n - 1);
      assert ValidItem(cfg, OfUnit(Case(j, g, n - 1)));
    }
  }

  lemma {:induction false} LessInGroups(cfg: Config, s: State, s': State, x: Item, j: nat, n: nat)
    requires s.Up? && s'.Up? && j < |cfg.jobs| && n <= |cfg.jobs[j].groups|
    requires NoMoreWork(cfg, s, s') && LessWork(cfg, s, s', x)
    ensures GroupsWork(cfg, s', j, n) <= GroupsWork(cfg, s, j, n)
    ensures x.OfUnit? && x.u.Case? && x.u.j == j && x.u.g < n ==> GroupsWork(cfg, s', j, n) < GroupsWork(cfg, s, j, n)
    ensures x.OfGroupAt? && x.j == j && x.g < n ==> GroupsWork(cfg, s', j, n) < GroupsWork(cfg, s, j, n)
  {
    hide ItemWork;
    if n > 0 {
      LessInGroups(cfg, s, s', x, j, n - 1);
      LessInCases(cfg, s, s', x, j, n - 1, |Tcs(cfg, j, n - 1)|);
      assert ValidItem(cfg, OfGroupAt(j, n - 1));
    }
  }

  lemma {:induction false} LessInJobs(cfg: Config, s: State, s': State, x: Item, n: nat)
    requires s.Up? && s'.Up? && n <= |cfg.jobs|
    requires NoMoreWork(cfg, s, s') && LessWork(cfg, s, s', x)
    ensures JobsWork(cfg, s', n) <= JobsWork(cfg, s, n)
    ensures x.OfUnit? && x.u.Case? && x.u.j < n ==> JobsWork(cfg, s', n) < JobsWork(cfg, s, n)
    ensures x.OfGroupAt? && x.j < n ==> JobsWork(cfg, s', n) < JobsWork(cfg, s, n)
    ensures x.OfJob? && x.n < n ==> JobsWork(cfg, s', n) < JobsWork(cfg, s, n)
  {
    hide ItemWork;
    if n > 0 {
      LessInJobs(cfg, s, s', x, n - 1);
      LessInGroups(cfg, s, s', x, n - 1, |cfg.jobs[n - 1].groups|);
      assert ValidItem(cfg, OfJob(n - 1));
    }
  }

  lemma {:induction false} LessInRequests(cfg: Config, s: State, s': State, x: Item, n: nat)
    requires s.Up? && s'.Up? && n <= |cfg.requests|
    requires NoMoreWork(cfg, s, s') && LessWork(cfg, s, s', x)
    ensures RequestsWork(cfg, s', n) <= RequestsWork(cfg, s, n)
    ensures x.OfUnit? && x.u.Request? && x.u.k < n ==> RequestsWork(cfg, s', n) < RequestsWork(cfg, s, n)
  {
    hide ItemWork;
    if n > 0 {
      LessInRequests(cfg, s, s', x, n - 1);
      assert ValidItem(cfg, OfUnit(Request(n - 1)));
    }
  }

  lemma LessWorkLeft(cfg: Config, s: State, s': State, x: Item)
    requires s.Up? && s'.Up? && NoMoreWork(cfg, s, s') && LessWork(cfg, s, s', x)
    ensures WorkLeft(cfg, s') < WorkLeft(cfg, s)
  {
    hide ItemWork;
    hide NoMoreWork;
    LessInJobs(cfg, s, s', x, |cfg.jobs|);
    LessInRequests(cfg, s, s', x, |cfg.requests|);
  }

  /** The item whose work an action does. */
  function ItemOf(s: State, a: Action): Item
    requires s.Up?
  {
    match a
    case Arrive(k) => OfUnit(Request(k))
    case LaunchGroup(j) => OfGroupAt(j, JobOf(s, j).next)
    case LaunchCase(j, g) => OfUnit(Case(j, g, GroupOf(s, j, g).next))
    case FinishGroup(j, g) => OfGroupAt(j, g)
    case ExitGroup(j, g) => OfGroupAt(j, g)
    case FinishJob(j) => OfJob(j)
    case _ => OfUnit(a.u)
  }

  /** Inside a box, the stage is one that is reached by steps of the duty. */
  ghost predicate StageOk(cfg: Config, s: State, u: Unit)
    requires s.Up?
  {
    var pc := PcOf(s, u);
    pc.InBox? && pc.stage.Writing? ==> pc.stage.k <= |Plan(cfg.env, pc.duty)|
  }

  lemma WorkDecreases(cfg: Config, s: State, u: Unit)
    requires s.Up? && Enabled(cfg, s, Work(u)) && StageOk(cfg, s, u)
    ensures UnitWork(cfg, u, PcOf(Apply(cfg, s, Work(u)), u)) < UnitWork(cfg, u, PcOf(s, u))
  {
    var pc := PcOf(s, u);
    StepAdvances(cfg.env, pc.duty, pc.stage, DiskAt(s, pc.box));
    hide StageStep;
    hide Plan;
  }

  lemma UnitWorkDecreases(cfg: Config, s: State, a: Action)
    requires ShapeInv(cfg, s) && s.Up? && Enabled(cfg, s, a) && Apply(cfg, s, a).Up?
    requires ItemOf(s, a).OfUnit?
    requires StageOk(cfg, s, ItemOf(s, a).u)
    ensures ValidUnit(cfg, ItemOf(s, a).u)
    ensures var u := ItemOf(s, a).u; UnitWork(cfg, u, PcOf(Apply(cfg, s, a), u)) < UnitWork(cfg, u, PcOf(s, u))
  {
    hide Summary, Plus, OfGroup, OfCase, AfterBox, StageStep;
    var u := ItemOf(s, a).u;
    assert CursorOk(cfg, s, u);
    hide ShapeInv;
    match a
    case Work(_) => WorkDecreases(cfg, s, u);
    case Release(_, _) => ReleaseDecreases(cfg, u, PcOf(s, u).duty, PcOf(s, u).stage.outcome);
    case _ =>
  }

  lemma ReleaseDecreases(cfg: Config, u: Unit, d: Duty, o: Outcome)
    requires ValidUnit(cfg, u)
    ensures UnitWork(cfg, u, AfterBox(cfg, u, d, o)) <= WorkAfter(d)
  {
    hide CaseResult;
  }

  /** Every step of every interleaving uses up work. */
  lemma StepUsesWork(cfg: Config, s: State, a: Action)
    requires ShapeInv(cfg, s) && s.Up? && Enabled(cfg, s, a) && Apply(cfg, s, a).Up?
    requires forall u :: StageOk(cfg, s, u)
    ensures WorkLeft(cfg, Apply(cfg, s, a)) < WorkLeft(cfg, s)
  {
    var s' := Apply(cfg, s, a);
    var x := ItemOf(s, a);
    OneItemChanges(cfg, s, a);
    LessWorkLeft(cfg, s, s', x);
  }

  /** A unit's step leaves the other program counters, the phases of all groups and all jobs as they are. */
  lemma UnitStepFrame(cfg: Config, s: State, a: Action)
    requires s.Up? && Enabled(cfg, s, a) && Apply(cfg, s, a).Up? && ItemOf(s, a).OfUnit?
    ensures var (s', u) := (Apply(cfg, s, a), ItemOf(s, a).u);
            && s'.jobs == s.jobs && s'.pcs == s.pcs[u := PcOf(s', u)]
            && forall j: nat, g: nat :: GroupOf(s', j, g).phase == GroupOf(s, j, g).phase
  {
    hide StageStep;
    hide AfterBox;
    hide FirstDuty;
    hide Plus;
    hide OfCase;
  }

  /** A step of a group's or a job's goroutine leaves the cases and the other groups as they are. */
  lemma GroupStepFrame(cfg: Config, s: State, a: Action)
    requires ShapeInv(cfg, s) && s.Up? && Enabled(cfg, s, a) && Apply(cfg, s, a).Up? && !ItemOf(s, a).OfUnit?
    ensures var (s', x) := (Apply(cfg, s, a), ItemOf(s, a));
            && s'.pcs == s.pcs
            && (forall j: nat, g: nat :: OfGroupAt(j, g) != x ==> GroupOf(s', j, g).phase == GroupOf(s, j, g).phase)
            && (forall j: nat :: OfJob(j) != x ==> JobOf(s', j).ret == JobOf(s, j).ret)
            && LessWork(cfg, s, s', x)
  {
    hide Summary;
    hide OfGroup;
    hide Plus;
    hide UnitWork;
    if a.LaunchGroup? { assert GroupOk(cfg, s, a.j, JobOf(s, a.j).next); }
  }

  lemma OneItemChanges(cfg: Config, s: State, a: Action)
    requires ShapeInv(cfg, s) && s.Up? && Enabled(cfg, s, a) && Apply(cfg, s, a).Up?
    requires forall u :: StageOk(cfg, s, u)
    ensures NoMoreWork(cfg, s, Apply(cfg, s, a)) && LessWork(cfg, s, Apply(cfg, s, a), ItemOf(s, a))
  {
    hide Apply;
    hide Enabled;
    hide UnitWork;
    hide ShapeInv;
    var s' := Apply(cfg, s, a);
    var x := ItemOf(s, a);
    if x.OfUnit? {
      UnitWorkDecreases(cfg, s, a);
      UnitStepFrame(cfg, s, a);
    } else {
      GroupStepFrame(cfg, s, a);
    }
    forall y | ValidItem(cfg, y) && y != x ensures ItemWork(cfg, s', y) <= ItemWork(cfg, s, y) {}
  }
}
