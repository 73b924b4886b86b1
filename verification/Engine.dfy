/**
 * The worker as a system of interleaved goroutines: any number of Grade calls, each with a goroutine per
 * test-case group and per test case, and any number of Run calls, over the two pools of sandbox boxes.
 * One Action is one atomic step of one goroutine; Next allows any enabled action, so a run is any interleaving.
 */
module Engine {
  import opened Floats
  import opened Models
  import opened Sandbox
  import opened GradeSpec
  import opened BoxWork

  const GRADE_GROUP_CONCURRENCY := 4

  datatype Config = Config(runAmount: nat, gradeAmount: nat, env: Env, jobs: seq<JobSpec>, requests: seq<Program>) {
    function GradePoolSize(): nat { gradeAmount * 2 }
  }

  datatype Kind = RunPool | GradePool

  /** A goroutine that takes boxes: a test case of a group of a job, or a Run call. */
  datatype Unit = Case(j: nat, g: nat, c: nat) | Request(k: nat)

  datatype Pc =
    | Idle                                          // not launched
    | Waiting(duty: Duty)                           // receiving from the channel of box ids
    | Acquired(duty: Duty, box: int)                // about to Init
    | InBox(duty: Duty, box: int, stage: Stage)     // between Init and Cleanup; at Over, about to Cleanup
    | Folding(result: TestCaseResult<Float32>)         // about to lock the group's mutex
    | Failing                                       // about to return an error to the errgroup
    | Exiting(ok: bool)                             // returned, its errgroup slot not yet free
    | Done(ok: bool)
    | Replied(outcome: Outcome)                     // a Run call that returned

  datatype Phase = NotLaunched | Live | Leaving | Left

  /** The variables of Result, and of the errgroup it owns. `order` records which case was folded when. */
  datatype Group = Group(phase: Phase, next: nat, err: bool, order: seq<nat>,
                         results: seq<TestCaseResult<Float32>>, total: Tally)

  datatype Return = Running | Returned(result: Option<GradeResult<Float32, Average>>)

  /** The variables of Grade, and of the errgroup it owns. */
  datatype Job = Job(next: nat, err: bool, order: seq<nat>, results: seq<TestCaseGroupResult<Float32>>,
                     total: Tally, ret: Return)

  /** Maps are sparse: what is missing is as it was at the start. */
  datatype State =
    | Crashed
    | Up(runFree: seq<int>, gradeFree: seq<int>, disk: map<int, Box>,
         pcs: map<Unit, Pc>, groups: map<(nat, nat), Group>, jobs: map<nat, Job>)

  const NewGroup := Group(NotLaunched, 0, false, [], [], ZERO)
  const NewJob := Job(0, false, [], [], ZERO, Running)

  function PcOf(s: State, u: Unit): Pc
    requires s.Up?
  {
    if u in s.pcs then s.pcs[u] else Idle
  }

  function GroupOf(s: State, j: nat, g: nat): Group
    requires s.Up?
  {
    if (j, g) in s.groups then s.groups[(j, g)] else NewGroup
  }

  function JobOf(s: State, j: nat): Job
    requires s.Up?
  {
    if j in s.jobs then s.jobs[j] else NewJob
  }

  function DiskAt(s: State, b: int): Box
    requires s.Up?
  {
    if b in s.disk then s.disk[b] else FRESH
  }

  function Free(s: State, k: Kind): seq<int>
    requires s.Up?
  {
    if k.RunPool? then s.runFree else s.gradeFree
  }

  function WithFree(s: State, k: Kind, free: seq<int>): State
    requires s.Up?
  {
    if k.RunPool? then s.(runFree := free) else s.(gradeFree := free)
  }

  function KindOf(u: Unit): Kind { if u.Case? then GradePool else RunPool }

  function BoxIds(cfg: Config, k: Kind): (r: seq<int>)
    ensures |r| == if k.RunPool? then cfg.runAmount else cfg.GradePoolSize()
    ensures forall i :: 0 <= i < |r| ==> r[i] == i + if k.RunPool? then 0 else cfg.runAmount
  {
    if k.RunPool? then seq(cfg.runAmount, i => i) else seq(cfg.GradePoolSize(), i => cfg.runAmount + i)
  }

  function SetPc(s: State, u: Unit, pc: Pc): State
    requires s.Up?
  {
    s.(pcs := s.pcs[u := pc])
  }

  function SetGroup(s: State, j: nat, g: nat, grp: Group): State
    requires s.Up?
  {
    s.(groups := s.groups[(j, g) := grp])
  }

  function SetJob(s: State, j: nat, job: Job): State
    requires s.Up?
  {
    s.(jobs := s.jobs[j := job])
  }

  // ---- what a unit works on -----------------------------------------------------------------------

  predicate ValidGroup(cfg: Config, j: nat, g: nat) {
    j < |cfg.jobs| && g < |cfg.jobs[j].groups|
  }

  predicate ValidUnit(cfg: Config, u: Unit) {
    match u
    case Case(j, g, c) => ValidGroup(cfg, j, g) && c < |cfg.jobs[j].groups[g].testCases|
    case Request(k) => k < |cfg.requests|
  }

  function Tcs(cfg: Config, j: nat, g: nat): seq<TestCase>
    requires ValidGroup(cfg, j, g)
  {
    cfg.jobs[j].groups[g].testCases
  }

  function CaseOf(cfg: Config, u: Unit): TestCase
    requires u.Case? && ValidUnit(cfg, u)
  {
    Tcs(cfg, u.j, u.g)[u.c]
  }

  function FirstDuty(cfg: Config, u: Unit): Duty
    requires ValidUnit(cfg, u)
  {
    match u
    case Case(j, g, c) => RunCase(ProgramOf(cfg.jobs[j], CaseOf(cfg, u)))
    case Request(k) => RunAlone(cfg.requests[k])
  }

  /** The errgroup context of the unit's group is cancelled: a case of the group, or a whole group, has failed. */
  predicate Cancelled(s: State, u: Unit)
    requires s.Up?
  {
    u.Case? && (GroupOf(s, u.j, u.g).err || JobOf(s, u.j).err)
  }

  predicate Alive(pc: Pc) { !pc.Idle? && !pc.Done? }

  function LiveCases(cfg: Config, s: State, j: nat, g: nat): set<nat>
    requires s.Up? && ValidGroup(cfg, j, g)
  {
    set c: nat | c < |Tcs(cfg, j, g)| && Alive(PcOf(s, Case(j, g, c)))
  }

  predicate GroupAlive(grp: Group) { grp.phase.Live? || grp.phase.Leaving? }

  function LiveGroups(cfg: Config, s: State, j: nat): set<nat>
    requires s.Up? && j < |cfg.jobs|
  {
    set g: nat | g < |cfg.jobs[j].groups| && GroupAlive(GroupOf(s, j, g))
  }

  /** Where a unit goes after its box is returned. */
  function AfterBox(cfg: Config, u: Unit, d: Duty, o: Outcome): Pc
    requires ValidUnit(cfg, u)
  {
    match u
    case Request(_) => Replied(o)
    case Case(j, _, _) =>
      var tc := CaseOf(cfg, u);
      match (d, o)
      case (RunCase(_), Ran(output, meta)) =>
        if meta.status != RUN_PASSED then Folding(CaseResult(tc, meta.status, output, output, meta))
        else if cfg.jobs[j].compare.None? then Failing
        else Waiting(Compare(cfg.jobs[j].compare.value, output, tc.output, meta))
      case (Compare(_, output, _, meta), Compared(text)) =>
        Folding(CaseResult(tc, if text == "" then RUN_PASSED else RUN_FAILED, output, text, meta))
      case (_, _) => Failing
  }

  // ---- steps ---------------------------------------------------------------------------------------

  datatype Action =
    | Arrive(k: nat)                          // a Run call starts
    | LaunchGroup(j: nat)                     // Grade's loop: eg.Go
    | LaunchCase(j: nat, g: nat)              // Result's loop: eg.Go
    | Receive(u: Unit)                        // NewGradeInstance or NewRunInstance
    | Init(u: Unit)
    | InitFails(u: Unit)                      // process exit
    | Work(u: Unit)                           // one step inside the box
    | Kill(u: Unit, outcome: Outcome, left: Box)   // the cancelled context kills the running command
    | Release(u: Unit, left: Box)             // Cleanup, then the box id goes back to the channel
    | CleanupFails(u: Unit)                   // process exit
    | Fold(u: Unit)                           // under Result's mutex
    | Fail(u: Unit)                           // the errgroup records the error and cancels
    | Exit(u: Unit)                           // the errgroup slot becomes free
    | FinishGroup(j: nat, g: nat)             // Result's Wait returns; under Grade's mutex, or an error
    | ExitGroup(j: nat, g: nat)
    | FinishJob(j: nat)                       // Grade returns

  predicate Releasing(pc: Pc) { pc.InBox? && pc.stage.Over? }

  ghost predicate Enabled(cfg: Config, s: State, a: Action)
    requires s.Up?
  {
    match a
    case Arrive(k) => k < |cfg.requests| && PcOf(s, Request(k)).Idle?
    case LaunchGroup(j) =>
      && j < |cfg.jobs| && cfg.jobs[j].compare.Some?
      && JobOf(s, j).next < |cfg.jobs[j].groups|
      && |LiveGroups(cfg, s, j)| < GRADE_GROUP_CONCURRENCY
    case LaunchCase(j, g) =>
      && ValidGroup(cfg, j, g)
      && GroupOf(s, j, g).phase.Live?
      && GroupOf(s, j, g).next < |Tcs(cfg, j, g)|
      && |LiveCases(cfg, s, j, g)| < cfg.GradePoolSize()
    case Receive(u) => ValidUnit(cfg, u) && PcOf(s, u).Waiting? && Free(s, KindOf(u)) != []
    case Init(u) => ValidUnit(cfg, u) && PcOf(s, u).Acquired? && !Cancelled(s, u)
    case InitFails(u) => ValidUnit(cfg, u) && PcOf(s, u).Acquired?
    case Work(u) => ValidUnit(cfg, u) && PcOf(s, u).InBox? && !PcOf(s, u).stage.Over?
    case Kill(u, outcome, left) =>
      && ValidUnit(cfg, u) && PcOf(s, u).InBox? && Cancelled(s, u)
      && Killed(cfg.env, PcOf(s, u).duty, PcOf(s, u).stage, outcome)
    case Release(u, left) => ValidUnit(cfg, u) && Releasing(PcOf(s, u))
    case CleanupFails(u) => ValidUnit(cfg, u) && Releasing(PcOf(s, u))
    case Fold(u) => ValidUnit(cfg, u) && u.Case? && PcOf(s, u).Folding?
    case Fail(u) => ValidUnit(cfg, u) && u.Case? && PcOf(s, u).Failing?
    case Exit(u) => ValidUnit(cfg, u) && PcOf(s, u).Exiting?
    case FinishGroup(j, g) =>
      && ValidGroup(cfg, j, g)
      && GroupOf(s, j, g).phase.Live?
      && GroupOf(s, j, g).next == |Tcs(cfg, j, g)|
      && forall c: nat :: c < |Tcs(cfg, j, g)| ==> PcOf(s, Case(j, g, c)).Done?
    case ExitGroup(j, g) => ValidGroup(cfg, j, g) && GroupOf(s, j, g).phase.Leaving?
    case FinishJob(j) =>
      && j < |cfg.jobs| && JobOf(s, j).ret.Running?
      && (cfg.jobs[j].compare.Some? ==>
            && JobOf(s, j).next == |cfg.jobs[j].groups|
            && forall g: nat :: g < |cfg.jobs[j].groups| ==> GroupOf(s, j, g).phase.Left?)
  }

  ghost function Apply(cfg: Config, s: State, a: Action): State
    requires s.Up? && Enabled(cfg, s, a)
  {
    match a
    case Arrive(k) => SetPc(s, Request(k), Waiting(FirstDuty(cfg, Request(k))))
    case LaunchGroup(j) =>
      var job := JobOf(s, j);
      SetJob(SetGroup(s, j, job.next, NewGroup.(phase := Live)), j, job.(next := job.next + 1))
    case LaunchCase(j, g) =>
      var grp := GroupOf(s, j, g);
      var u := Case(j, g, grp.next);
      SetGroup(SetPc(s, u, Waiting(FirstDuty(cfg, u))), j, g, grp.(next := grp.next + 1))
    case Receive(u) =>
      var free := Free(s, KindOf(u));
      SetPc(WithFree(s, KindOf(u), free[1..]), u, Acquired(PcOf(s, u).duty, free[0]))
    case Init(u) =>
      var pc := PcOf(s, u);
      SetPc(s.(disk := s.disk[pc.box := FRESH]), u, InBox(pc.duty, pc.box, Writing(0)))
    case InitFails(u) => Crashed
    case Work(u) =>
      var pc := PcOf(s, u);
      var (st, box) := StageStep(cfg.env, pc.duty, pc.stage, DiskAt(s, pc.box));
      SetPc(s.(disk := s.disk[pc.box := box]), u, pc.(stage := st))
    case Kill(u, outcome, left) =>
      var pc := PcOf(s, u);
      SetPc(s.(disk := s.disk[pc.box := left]), u, pc.(stage := Over(outcome)))
    case Release(u, left) =>
      var pc := PcOf(s, u);
      SetPc(WithFree(s.(disk := s.disk[pc.box := left]), KindOf(u), Free(s, KindOf(u)) + [pc.box]),
            u, AfterBox(cfg, u, pc.duty, pc.stage.outcome))
    case CleanupFails(u) => Crashed
    case Fold(u) =>
      var grp := GroupOf(s, u.j, u.g);
      var r := PcOf(s, u).result;
      SetGroup(SetPc(s, u, Exiting(true)), u.j, u.g,
               grp.(order := grp.order + [u.c], results := grp.results + [r], total := Plus(grp.total, OfCase(r))))
    case Fail(u) =>
      SetGroup(SetPc(s, u, Exiting(false)), u.j, u.g, GroupOf(s, u.j, u.g).(err := true))
    case Exit(u) => SetPc(s, u, Done(PcOf(s, u).ok))
    case FinishGroup(j, g) =>
      var grp := GroupOf(s, j, g);
      var job := JobOf(s, j);
      var s2 := SetGroup(s, j, g, grp.(phase := Leaving));
      if grp.err then SetJob(s2, j, job.(err := true))
      else
        var o := OfGroup(cfg.jobs[j].groups[g], grp.results, grp.total);
        SetJob(s2, j, job.(order := job.order + [g], results := job.results + [o.result],
                           total := Plus(job.total, o.tally)))
    case ExitGroup(j, g) => SetGroup(s, j, g, GroupOf(s, j, g).(phase := Left))
    case FinishJob(j) =>
      var job := JobOf(s, j);
      var result :=
        if cfg.jobs[j].compare.None? then Some(NoCompare)
        else if job.err then None
        else Some(Summary(job.results, job.total));
      SetJob(s, j, job.(ret := Returned(result)))
  }

  /** Nothing runs yet and every box is free; what is left on the disk from earlier processes is arbitrary. */
  predicate Initial(cfg: Config, s: State) {
    && s.Up? && s.runFree == BoxIds(cfg, RunPool) && s.gradeFree == BoxIds(cfg, GradePool)
    && s.pcs == map[] && s.groups == map[] && s.jobs == map[]
  }

  ghost predicate Next(cfg: Config, s: State, s': State) {
    s.Up? && exists a :: Enabled(cfg, s, a) && s' == Apply(cfg, s, a)
  }

  /** A finite run: any interleaving of any length. */
  ghost predicate Run(cfg: Config, run: seq<State>) {
    && run != [] && Initial(cfg, run[0])
    && forall i :: 0 <= i < |run| - 1 ==> Next(cfg, run[i], run[i + 1])
  }

  ghost predicate Reachable(cfg: Config, s: State) {
    exists run :: Run(cfg, run) && run[|run| - 1] == s
  }

  /** Every Grade and Run call has returned. */
  predicate AllReturned(cfg: Config, s: State)
    requires s.Up?
  {
    && (forall j: nat :: j < |cfg.jobs| ==> JobOf(s, j).ret.Returned?)
    && (forall k: nat :: k < |cfg.requests| ==> PcOf(s, Request(k)).Replied?)
  }
}
