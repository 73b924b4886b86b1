/**
 * What one goroutine does inside a box between Init and Cleanup, one file write or one isolate command at a
 * time, and the proof that these steps on a private fresh box add up to the outcomes of GradeSpec.
 */
module BoxWork {
  import opened Floats
  import opened Models
  import opened Sandbox
  import opened GradeSpec

  /** What a goroutine wants a box for: RunTestCase, CompareOutput or Run. */
  datatype Duty =
    | RunCase(prog: Program)
    | Compare(cmp: LocalCompare, output: string, expected: string, meta: RunMeta)
    | RunAlone(prog: Program)

  datatype Stage = Writing(k: nat) | Prepared | Executed(output: string) | Over(outcome: Outcome)

  /** The files that are created in the box, in order. */
  function Plan(env: Env, d: Duty): seq<File> {
    match d
    case RunCase(p) => p.files
    case RunAlone(p) => p.files
    case Compare(cmp, output, expected, _) =>
      var script := env.readConfig(cmp.path + "/run_script.sh");
      [File("output", output), File("sol_output", expected)]
      + if script.Content? then [File("run_script.sh", Preamble(cmp) + script.text)] else []
  }

  /** One step inside the box when the context is not cancelled. */
  function StageStep(env: Env, d: Duty, st: Stage, box: Box): (Stage, Box)
    requires !st.Over?
  {
    match st
    case Writing(k) =>
      if k < |Plan(env, d)| then
        var f := Plan(env, d)[k];
        if env.canWrite(box, f) then (Writing(k + 1), Write(box, f)) else (Over(WriteFailed(d)), box)
      else Prepare(env, d, box)
    case Prepared =>
      var e := Execute(env, d, box);
      if ExecuteFailed(d, e).Some? then (Over(ExecuteFailed(d, e).value), e.box) else (Executed(e.Output()), e.box)
    case Executed(output) => (Over(Collected(env, d, output, box)), box)
  }

  function WriteFailed(d: Duty): Outcome {
    if d.RunCase? then GraderError("create file error") else Error
  }

  /** Compiling, or finding the compare's script. */
  function Prepare(env: Env, d: Duty, box: Box): (Stage, Box) {
    match d
    case Compare(cmp, _, _, _) =>
      (match env.readConfig(cmp.path + "/run_script.sh")
       case Content(_) => (Prepared, box)
       case NotExist => (Over(Compared(ScriptMissing(env, cmp))), box)
       case ReadError => (Over(Error), box))
    case _ =>
      if !d.prog.runner.needCompile then (Prepared, box)
      else
        var c := env.compile(box, d.prog.runner.path);
        if c.exit.Succeeded? then (Prepared, c.box) else (Over(CompileFailed(d, c.Output())), c.box)
  }

  function CompileFailed(d: Duty, output: string): Outcome {
    if d.RunAlone? then Reply(COMPILE_FAILED, output, NO_TIME, 0) else Ran(output, RunMeta(COMPILE_FAILED, NO_TIME, 0))
  }

  function Execute(env: Env, d: Duty, box: Box): Execution {
    match d
    case Compare(cmp, _, _, _) => env.compare(box, cmp.path)
    case _ => env.run(box, d.prog)
  }

  function ExecuteFailed(d: Duty, e: Execution): Option<Outcome> {
    match d
    case RunCase(_) => if e.exit.Succeeded? then None else Some(GraderError(e.Output()))
    case Compare(_, _, _, _) => if e.exit.Succeeded? || e.exit == ExitStatus(1) then None else Some(Error)
    case RunAlone(_) =>
      match e.exit
      case Succeeded => None
      case ExitStatus(code) => Some(if code == 127 then Error else Reply(RUN_FAILED, e.Output(), NO_TIME, 0))
      case OtherError => Some(Error)
  }

  /** Reading back the metadata, or the compare's verdict. */
  function Collected(env: Env, d: Duty, output: string, box: Box): Outcome {
    match d
    case Compare(_, _, _, _) =>
      (match GetCompareResult(box) case Some(text) => Compared(text) case None => Error)
    case RunCase(p) =>
      (match GetMetadata(env, box)
       case None => Error
       case Some(m) => Ran(output, RunMeta(Classify(m, p.limits), m.wallTime, m.memory)))
    case RunAlone(_) =>
      match GetMetadata(env, box)
      case None => Error
      case Some(m) => Reply(RUN_PASSED, output, m.wallTime, m.memory)
  }

  /** A command that the cancelled context may kill, and what its caller then returns. */
  ghost predicate Killed(env: Env, d: Duty, st: Stage, o: Outcome) {
    match st
    case Writing(k) => k >= |Plan(env, d)| && !d.Compare? && d.prog.runner.needCompile
                       && exists output: string :: o == CompileFailed(d, output)
    case Prepared => exists e: Execution :: !e.exit.Succeeded? && e.exit != ExitStatus(1) && Some(o) == ExecuteFailed(d, e)
    case _ => false
  }

  // ---- the same work on a private box -------------------------------------------------------------

  /** Stage and contents after n steps on a fresh box that nobody else touches. */
  function Alone(env: Env, d: Duty, n: nat): (Stage, Box) {
    if n == 0 then (Writing(0), FRESH)
    else
      var (st, box) := Alone(env, d, n - 1);
      if st.Over? then (st, box) else StageStep(env, d, st, box)
  }

  /** The number of steps that lead to a stage that is not Over. */
  function StepsTo(env: Env, d: Duty, st: Stage): nat {
    match st
    case Writing(k) => k
    case Prepared => |Plan(env, d)| + 1
    case Executed(_) => |Plan(env, d)| + 2
    case Over(_) => |Plan(env, d)| + 3
  }

  /** The outcome that GradeSpec gives to a duty. */
  function Meaning(env: Env, d: Duty): Outcome {
    match d
    case RunCase(p) => RunTestCase(env, p)
    case Compare(cmp, output, expected, _) => CompareOutput(env, cmp, output, expected)
    case RunAlone(p) => RunRequest(env, p)
  }

  /** What the rest of the duty returns from a given stage and box: the denotation of what is left to do. */
  function Rest(env: Env, d: Duty, st: Stage, box: Box): Outcome {
    match st
    case Over(o) => o
    case Executed(output) => Collected(env, d, output, box)
    case Prepared => RestPrepared(env, d, box)
    case Writing(k) =>
      match WriteAll(env, box, if k < |Plan(env, d)| then Plan(env, d)[k..] else [])
      case None => WriteFailed(d)
      case Some(b) => var (st2, b2) := Prepare(env, d, b); if st2.Over? then st2.outcome else RestPrepared(env, d, b2)
  }

  function RestPrepared(env: Env, d: Duty, box: Box): Outcome {
    var e := Execute(env, d, box);
    if ExecuteFailed(d, e).Some? then ExecuteFailed(d, e).value else Collected(env, d, e.Output(), e.box)
  }

  lemma PreparedOrOver(env: Env, d: Duty, box: Box)
    ensures Prepare(env, d, box).0.Prepared? || Prepare(env, d, box).0.Over?
  {
  }

  lemma StepKeepsRest(env: Env, d: Duty, st: Stage, box: Box)
    requires !st.Over?
    ensures var (st2, box2) := StageStep(env, d, st, box); Rest(env, d, st2, box2) == Rest(env, d, st, box)
  {
    hide Collected;
    hide ExecuteFailed;
    hide Execute;
    hide Prepare;
    hide WriteFailed;
    hide Plan;
    if st.Writing? && st.k < |Plan(env, d)| {
      var plan := Plan(env, d);
      assert plan[st.k..][1..] == plan[st.k + 1..];
    } else if st.Writing? {
      PreparedOrOver(env, d, box);
    }
  }

  lemma {:induction false} WriteAllInTwoParts(env: Env, box: Box, a: seq<File>, b: seq<File>)
    ensures WriteAll(env, box, a + b) ==
            match WriteAll(env, box, a) case None => None case Some(box2) => WriteAll(env, box2, b)
    decreases |a|
  {
    if a == [] {
      assert a + b == b;
    } else {
      assert (a + b)[1..] == a[1..] + b;
      if env.canWrite(box, a[0]) { WriteAllInTwoParts(env, Write(box, a[0]), a[1..], b); }
    }
  }

  /** From the start, the rest of the duty is all of it. */
  lemma RestIsMeaning(env: Env, d: Duty)
    ensures Rest(env, d, Writing(0), FRESH) == Meaning(env, d)
  {
    var plan := Plan(env, d);
    assert plan[0..] == plan;
    if d.Compare? {
      var script := env.readConfig(d.cmp.path + "/run_script.sh");
      var two := [File("output", d.output), File("sol_output", d.expected)];
      if script.Content? {
        var last := [File("run_script.sh", Preamble(d.cmp) + script.text)];
        WriteAllInTwoParts(env, FRESH, two, last);
        assert last[1..] == [];
      } else {
        assert plan == two;
      }
    }
  }

  /** Small steps on a private box compute GradeSpec's outcome. */
  lemma {:induction false} AloneKeepsRest(env: Env, d: Duty, n: nat)
    ensures var (st, box) := Alone(env, d, n); Rest(env, d, st, box) == Meaning(env, d)
  {
    hide StageStep;
    hide Rest;
    hide Meaning;
    if n == 0 {
      RestIsMeaning(env, d);
    } else {
      AloneKeepsRest(env, d, n - 1);
      var (st, box) := Alone(env, d, n - 1);
      if !st.Over? { StepKeepsRest(env, d, st, box); }
    }
  }

  lemma StepAdvances(env: Env, d: Duty, st: Stage, box: Box)
    requires !st.Over? && (st.Writing? ==> st.k <= |Plan(env, d)|)
    ensures var st2 := StageStep(env, d, st, box).0;
            !st2.Over? ==> StepsTo(env, d, st2) == StepsTo(env, d, st) + 1 && (st2.Writing? ==> st2.k <= |Plan(env, d)|)
  {
    hide Plan;
    hide Execute;
    hide ExecuteFailed;
    hide Collected;
  }

  /** A stage says how many steps led to it, so a duty is over within a fixed number of steps. */
  lemma {:induction false} StageTellsSteps(env: Env, d: Duty, n: nat)
    ensures var st := Alone(env, d, n).0;
            !st.Over? ==> StepsTo(env, d, st) == n && (st.Writing? ==> st.k <= |Plan(env, d)|)
    ensures n >= |Plan(env, d)| + 3 ==> Alone(env, d, n).0 == Over(Meaning(env, d))
  {
    hide Plan;
    hide StageStep;
    hide Meaning;
    if n > 0 {
      StageTellsSteps(env, d, n - 1);
      var (st, box) := Alone(env, d, n - 1);
      if !st.Over? { StepAdvances(env, d, st, box); }
    }
    AloneKeepsRest(env, d, n);
  }

  /** One more step of a duty that has so far gone as on a private box. */
  lemma OneMoreStep(env: Env, d: Duty, st: Stage, box: Box)
    requires !st.Over? && (st, box) == Alone(env, d, StepsTo(env, d, st))
    ensures var (st2, box2) := StageStep(env, d, st, box);
            && (st2.Over? ==> st2.outcome == Meaning(env, d))
            && (!st2.Over? ==> (st2, box2) == Alone(env, d, StepsTo(env, d, st2)))
  {
    hide Plan;
    hide StageStep;
    hide Meaning;
    var n := StepsTo(env, d, st);
    assert StageStep(env, d, st, box) == Alone(env, d, n + 1);
    StageTellsSteps(env, d, n + 1);
    AloneKeepsRest(env, d, n + 1);
  }

  /** The box holds exactly these files, written in this order: for each name the last content. */
  ghost predicate HoldsExactly(box: Box, files: seq<File>) {
    && box.meta == None
    && (forall name :: name in box.files ==> exists i :: 0 <= i < |files| && files[i].name == name)
    && (forall i :: 0 <= i < |files| ==> files[i].name in box.files)
    && (forall i :: 0 <= i < |files| && (forall j :: i < j < |files| ==> files[j].name != files[i].name)
                    ==> box.files[files[i].name] == Data(files[i].content))
  }

  lemma WriteHoldsExactly(box: Box, files: seq<File>, f: File)
    requires HoldsExactly(box, files)
    ensures HoldsExactly(Write(box, f), files + [f])
  {
    var (box2, files2) := (Write(box, f), files + [f]);
    forall name | name in box2.files ensures exists i :: 0 <= i < |files2| && files2[i].name == name {
      if name == f.name {
        assert files2[|files|].name == name;
      } else {
        var i :| 0 <= i < |files| && files[i].name == name;
        assert files2[i].name == name;
      }
    }
    forall i | 0 <= i < |files2| && (forall j :: i < j < |files2| ==> files2[j].name != files2[i].name)
      ensures box2.files[files2[i].name] == Data(files2[i].content)
    {
      if i < |files| {
        assert files2[|files|].name != files2[i].name;
        forall j | i < j < |files| ensures files[j].name != files[i].name { assert files2[j] == files[j]; }
      }
    }
  }

  /** While files are being written, the box holds exactly the files that its own duty has written so far. */
  lemma {:induction false} BoxHoldsOwnFilesOnly(env: Env, d: Duty, n: nat)
    requires Alone(env, d, n).0 == Writing(n) && n <= |Plan(env, d)|
    ensures HoldsExactly(Alone(env, d, n).1, Plan(env, d)[..n])
  {
    hide Plan;
    hide HoldsExactly;
    FreshHoldsNothing();
    if n > 0 {
      hide Alone;
      LastStepWrote(env, d, n);
      BoxHoldsOwnFilesOnly(env, d, n - 1);
      WriteHoldsExactly(Alone(env, d, n - 1).1, Plan(env, d)[..n - 1], Plan(env, d)[n - 1]);
      assert Plan(env, d)[..n] == Plan(env, d)[..n - 1] + [Plan(env, d)[n - 1]];
    }
  }

  lemma FreshHoldsNothing()
    ensures HoldsExactly(FRESH, [])
  {
  }

  lemma LastStepWrote(env: Env, d: Duty, n: nat)
    requires n > 0 && Alone(env, d, n).0 == Writing(n) && n <= |Plan(env, d)|
    ensures Alone(env, d, n - 1).0 == Writing(n - 1)
    ensures Alone(env, d, n).1 == Write(Alone(env, d, n - 1).1, Plan(env, d)[n - 1])
  {
    hide Plan;
    hide Execute;
    hide ExecuteFailed;
    hide Collected;
    StageTellsSteps(env, d, n - 1);
  }
}
