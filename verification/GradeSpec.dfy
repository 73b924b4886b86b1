/**
 * What grading means: the outcome of every run, compare, test case, group and job as a function of the
 * request alone. No boxes are shared here and nothing runs in parallel; Executor proves the source's methods
 * against these functions, and Engine proves every interleaving of its goroutines against them.
 */
module GradeSpec {
  import opened Floats
  import opened GoInt
  import opened Models
  import opened Metadata
  import opened Capture
  import opened Sandbox
  import opened Sequences

  datatype JobSpec = JobSpec(files: seq<File>, runner: LocalRunner, compare: Option<LocalCompare>, limits: Limit,
                             groups: seq<TestCaseGroup>)

  datatype RunMeta = RunMeta(status: Status, wallTime: Float32, memory: int32)

  /** What RunTestCase, CompareOutput and Run return once their box is given back. */
  datatype Outcome =
    | Ran(output: string, meta: RunMeta)
    | Compared(result: string)
    | Answered(result_: RunResult<Float32>)
    | Error

  // ---- one box ----------------------------------------------------------------------------------

  function Classify(m: Metadata, limits: Limit): Status {
    if m.failedStatus == "" then RUN_PASSED
    else if limits.memory != 0 && m.memory > limits.memory then MEMORY_LIMIT_EXCEEDED
    else if m.failedStatus == "TO" then TIME_LIMIT_EXCEEDED
    else if m.failedStatus == "RE" then RUNTIME_ERROR
    else if m.failedStatus == "SG" then SIGNAL_ERROR
    else if m.failedStatus == "XX" then GRADER_ERROR
    else RUN_PASSED
  }

  function GraderError(output: string): Outcome {
    Ran(output, RunMeta(GRADER_ERROR, NO_TIME, 0))
  }

  function RunOutcome(env: Env, p: Program, e: Execution): Outcome {
    if !e.exit.Succeeded? then GraderError(e.Output())
    else match GetMetadata(env, e.box)
         case None => Error
         case Some(m) => Ran(e.Output(), RunMeta(Classify(m, p.limits), m.wallTime, m.memory))
  }

  /** RunTestCase on a private, freshly initialised box. */
  function RunTestCase(env: Env, p: Program): Outcome {
    match WriteAll(env, FRESH, p.files)
    case None => GraderError("create file error")
    case Some(box) =>
      if !p.runner.needCompile then RunOutcome(env, p, env.run(box, p))
      else
        var c := env.compile(box, p.runner.path);
        if !c.exit.Succeeded? then Ran(c.Output(), RunMeta(COMPILE_FAILED, NO_TIME, 0))
        else RunOutcome(env, p, env.run(c.box, p))
  }

  function SearchPath(): string {
    "/usr/local/sbin:/usr/local/bin:" + "/usr/sbin:/usr/bin:/sbin:/bin"
  }

  function Preamble(cmp: LocalCompare): string {
    "#!/bin/bash" + "\n" + "export PATH=" + SearchPath() + "\n"
    + "export RUN_NAME=" + cmp.path + "/" + cmp.runName + "\n"
    + "export OUTPUT=/box/output" + "\n" + "export SOL_OUTPUT=/box/sol_output" + "\n"
  }

  function ScriptMissing(env: Env, cmp: LocalCompare): string {
    "grader error: run_script.sh not found for compare " + env.quote(cmp.path)
    + " \U{E2}\U{80}\U{94} re-save the compare script to rebuild"
  }

  /** RunWithDir treats exit status 1, a mismatch, as success. */
  function CompareOutcome(e: Execution): Outcome {
    if e.exit.Succeeded? || e.exit == ExitStatus(1) then
      match GetCompareResult(e.box)
      case Some(text) => Compared(text)
      case None => Error
    else Error
  }

  /** CompareOutput on a private, freshly initialised box. */
  function CompareOutput(env: Env, cmp: LocalCompare, output: string, expected: string): Outcome {
    match WriteAll(env, FRESH, [File("output", output), File("sol_output", expected)])
    case None => Error
    case Some(box) =>
      match env.readConfig(cmp.path + "/run_script.sh")
      case NotExist => Compared(ScriptMissing(env, cmp))
      case ReadError => Error
      case Content(script) => CompareWith(env, cmp, box, script)
  }

  /** The rest of CompareOutput, once its script has been read. */
  function CompareWith(env: Env, cmp: LocalCompare, box: Box, script: string): Outcome {
    var f := File("run_script.sh", Preamble(cmp) + script);
    if env.canWrite(box, f) then CompareOutcome(env.compare(Write(box, f), cmp.path)) else Error
  }

  /** The playground's Run; its id field is filled in by the worker's handler. */
  function RunRequest(env: Env, p: Program): Outcome {
    match WriteAll(env, FRESH, p.files)
    case None => Error
    case Some(box) =>
      if !p.runner.needCompile then RunRequestOutcome(env, env.run(box, p))
      else
        var c := env.compile(box, p.runner.path);
        if !c.exit.Succeeded? then Reply(COMPILE_FAILED, c.Output(), NO_TIME, 0)
        else RunRequestOutcome(env, env.run(c.box, p))
  }

  /** RunFromDir turns exit status 127 into an error that is no longer an exec.ExitError. */
  function RunRequestOutcome(env: Env, e: Execution): Outcome {
    match e.exit
    case Succeeded =>
      (match GetMetadata(env, e.box)
       case None => Error
       case Some(m) => Reply(RUN_PASSED, e.Output(), m.wallTime, m.memory))
    case ExitStatus(code) => if code == 127 then Error else Reply(RUN_FAILED, e.Output(), NO_TIME, 0)
    case OtherError => Error
  }

  function Reply(status: Status, output: string, wallTime: Float32, memory: int32): Outcome {
    Answered(RunResult("", status, output, wallTime, memory, 0, ""))
  }

  // ---- one test case ----------------------------------------------------------------------------

  function ProgramOf(job: JobSpec, tc: TestCase): Program {
    Program(job.files, job.runner, tc.input, job.limits)
  }

  function CaseResult(tc: TestCase, status: Status, output: string, message: string, meta: RunMeta):
    TestCaseResult<Float32>
  {
    TestCaseResult(tc.id, status, tc.input, TruncateOutput(output), message, meta.wallTime, meta.memory)
  }

  /** GetTestCaseResult; None is an error. Grade never gets here without a compare. */
  function GradeCase(env: Env, job: JobSpec, tc: TestCase): Option<TestCaseResult<Float32>> {
    match RunTestCase(env, ProgramOf(job, tc))
    case Ran(output, meta) =>
      if meta.status != RUN_PASSED then Some(CaseResult(tc, meta.status, output, output, meta))
      else if job.compare.None? then None
      else
        (match CompareOutput(env, job.compare.value, output, tc.output)
         case Compared(text) =>
           Some(CaseResult(tc, if text == "" then RUN_PASSED else RUN_FAILED, output, text, meta))
         case _ => None)
    case _ => None
  }

  // ---- totals -----------------------------------------------------------------------------------

  /** The running totals of Result and Grade. Additions are Go's int32 additions; wall times are not rounded. */
  datatype Tally = Tally(score: int32, wallTime: Time, memory: int32, count: int32, failed: bool)

  const ZERO := Tally(0, Exact(0), 0, 0, false)

  function Plus(a: Tally, b: Tally): Tally {
    Tally(Add32(a.score, b.score), AddTime(a.wallTime, b.wallTime), Add32(a.memory, b.memory),
          Add32(a.count, b.count), a.failed || b.failed)
  }

  function Total(ts: seq<Tally>): Tally {
    if ts == [] then ZERO else Plus(Total(ts[..|ts| - 1]), ts[|ts| - 1])
  }

  lemma TotalOneMore<T>(f: T -> Tally, s: seq<T>, x: T)
    ensures Total(Mapped(f, s + [x])) == Plus(Total(Mapped(f, s)), f(x))
  {
    var ts := Mapped(f, s + [x]);
    assert ts[..|ts| - 1] == Mapped(f, s);
  }

  function OfCase(r: TestCaseResult<Float32>): Tally {
    Tally(0, TimeOf(r.wallTime), r.memory, 0, r.status != RUN_PASSED)
  }

  /** What a group's result and runMetadata add to the job. */
  datatype GroupOutcome = GroupOutcome(result: TestCaseGroupResult<Float32>, tally: Tally)

  function OfGroup(g: TestCaseGroup, results: seq<TestCaseResult<Float32>>, total: Tally): GroupOutcome {
    var score := if total.failed then 0 else g.score;
    GroupOutcome(TestCaseGroupResult(g.id, score, results),
                 Tally(score, total.wallTime, total.memory, Wrap32(|results|), total.failed))
  }

  // ---- groups and jobs, graded one after the other -----------------------------------------------

  /** The results of f over s, or None if one of them is None. */
  function Collect<T, R>(f: T -> Option<R>, s: seq<T>): (r: Option<seq<R>>)
    ensures r.Some? ==> |r.value| == |s| && forall i :: 0 <= i < |s| ==> f(s[i]) == Some(r.value[i])
    ensures r.None? <==> exists i :: 0 <= i < |s| && f(s[i]).None?
  {
    if s == [] then Some([])
    else
      var before := Collect(f, s[..|s| - 1]);
      var last := f(s[|s| - 1]);
      if before.Some? && last.Some? then Some(before.value + [last.value]) else None
  }

  lemma CollectOneMore<T, R>(f: T -> Option<R>, s: seq<T>, n: nat)
    requires n < |s|
    ensures var (before, more, last) := (Collect(f, s[..n]), Collect(f, s[..n + 1]), f(s[n]));
            more == if before.Some? && last.Some? then Some(before.value + [last.value]) else None
  {
    assert s[..n + 1][..n] == s[..n];
  }

  function CaseGrader(env: Env, job: JobSpec): TestCase -> Option<TestCaseResult<Float32>> {
    tc => GradeCase(env, job, tc)
  }

  function GradeGroup(env: Env, job: JobSpec, g: TestCaseGroup): Option<GroupOutcome> {
    match Collect(CaseGrader(env, job), g.testCases)
    case None => None
    case Some(rs) => Some(OfGroup(g, rs, Total(Mapped(OfCase, rs))))
  }

  function GroupGrader(env: Env, job: JobSpec): TestCaseGroup -> Option<GroupOutcome> {
    g => GradeGroup(env, job, g)
  }

  function ResultOf(o: GroupOutcome): TestCaseGroupResult<Float32> { o.result }

  function TallyOf(o: GroupOutcome): Tally { o.tally }

  function Summary(results: seq<TestCaseGroupResult<Float32>>, total: Tally): GradeResult<Float32, Average> {
    GradeResult(
      if total.failed then RUN_FAILED else RUN_PASSED,
      Some(results),
      if total.count > 0 then Average(total.wallTime, total.count) else NO_AVERAGE,
      if total.count > 0 then Wrap32(TruncDiv(total.memory, total.count)) else 0,
      total.score)
  }

  const NoCompare: GradeResult<Float32, Average> := GradeResult(GRADER_ERROR, None, NO_AVERAGE, 0, 0)

  /** Grade; None is an error. */
  function Grade(env: Env, job: JobSpec): Option<GradeResult<Float32, Average>> {
    if job.compare.None? then Some(NoCompare)
    else match Collect(GroupGrader(env, job), job.groups)
         case None => None
         case Some(os) => Some(Summary(Mapped(ResultOf, os), Total(Mapped(TallyOf, os))))
  }

  // ---- totals do not depend on the order of arrival ----------------------------------------------

  lemma PlusCommutes(a: Tally, b: Tally, c: Tally)
    ensures Plus(Plus(a, b), c) == Plus(Plus(a, c), b)
  {
    hide Wrap32;
    hide Add32;
    AddTimeCommutes(a.wallTime, b.wallTime, c.wallTime);
    AddCommutes(a.score, b.score, c.score);
    AddCommutes(a.memory, b.memory, c.memory);
    AddCommutes(a.count, b.count, c.count);
  }

  lemma {:induction false} TotalWithout(ts: seq<Tally>, i: nat)
    requires i < |ts|
    ensures Total(ts) == Plus(Total(Without(ts, i)), ts[i])
  {
    hide Plus;
    var last := |ts| - 1;
    if i < last {
      TotalWithout(ts[..last], i);
      assert Without(ts, i) == Without(ts[..last], i) + [ts[last]];
      assert (Without(ts[..last], i) + [ts[last]])[..last - 1] == Without(ts[..last], i);
      PlusCommutes(Total(Without(ts[..last], i)), ts[i], ts[last]);
    } else {
      assert Without(ts, i) == ts[..last];
    }
  }

  lemma {:induction false} TotalOfPermutation(a: seq<Tally>, b: seq<Tally>)
    requires multiset(a) == multiset(b)
    ensures Total(a) == Total(b)
  {
    if a == [] {
      assert |multiset(b)| == 0;
    } else {
      assert a[0] in multiset(b);
      var i :| 0 <= i < |b| && b[i] == a[0];
      SplitAt(a, 0);
      SplitAt(b, i);
      assert multiset(Without(a, 0)) == multiset(a) - multiset{a[0]} == multiset(Without(b, i));
      TotalOfPermutation(Without(a, 0), Without(b, i));
      TotalWithout(a, 0);
      TotalWithout(b, i);
    }
  }
}
