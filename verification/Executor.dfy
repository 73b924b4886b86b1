/**
 * domain/services/executor.go: the bodies of Run, RunTestCase, CompareOutput, GetTestCaseResult, Result and
 * Grade, with goroutines run to completion where they are launched. Engine covers the other interleavings.
 */
module Executor {
  import opened Floats
  import opened GoInt
  import opened Models
  import opened Metadata
  import opened Capture
  import opened Sandbox
  import opened Sequences
  import opened Isolate
  import G = GradeSpec
  import opened GradeSpec

  /** What a call returns, unless the process exits inside it, or it waits for a box of an empty pool for ever. */
  datatype Ended<+T> = Exited | Blocked | Value(value: T)

  class TestCaseRunner {
    const env: Env
    const job: JobSpec
    const service: IsolateService

    constructor (env: Env, job: JobSpec, service: IsolateService)
      ensures this.env == env && this.job == job && this.service == service
    {
      this.env, this.job, this.service := env, job, service;
    }

    /** The front box id has been taken and put at the back. */
    twostate predicate Rotated()
      reads service
    {
      && old(service.gradeBoxIds) != []
      && service.gradeBoxIds == old(service.gradeBoxIds)[1..] + [old(service.gradeBoxIds)[0]]
      && service.runBoxIds == old(service.runBoxIds)
    }

    /** The pools hold what they held, up to order in the grade pool. */
    twostate predicate SamePools()
      reads service
    {
      && multiset(service.gradeBoxIds) == multiset(old(service.gradeBoxIds))
      && |service.gradeBoxIds| == |old(service.gradeBoxIds)|
      && service.runBoxIds == old(service.runBoxIds)
    }

    method RunTestCase(cancelled: bool, tc: TestCase) returns (r: Ended<Outcome>)
      modifies service
      ensures r.Blocked? <==> old(service.gradeBoxIds) == []
      ensures r.Value? ==> !cancelled && r.value == G.RunTestCase(env, ProgramOf(job, tc)) && Rotated()
      ensures forall b :: old(service.gradeBoxIds) == [] || b != old(service.gradeBoxIds)[0] ==>
                service.BoxAt(b) == old(service.BoxAt(b))
    {
      if service.gradeBoxIds == [] {
        return Blocked;
      }
      var instance := service.NewGradeInstance();
      var alive := instance.Init(cancelled);
      if !alive {
        return Exited;
      }
      var o := RunInBox(instance, tc);
      alive := instance.Cleanup();
      return if alive then Value(o) else Exited;
    }

    /** The part of RunTestCase between Init and the deferred Cleanup. */
    method RunInBox(instance: IsolateInstance, tc: TestCase) returns (o: Outcome)
      requires instance.service == service && instance.Box() == FRESH
      modifies service`disk
      ensures o == G.RunTestCase(env, ProgramOf(job, tc))
      ensures instance.OnlyOwnBox()
    {
      hide Classify, Sandbox.GetMetadata;
      var p := ProgramOf(job, tc);
      var n := 0;
      while n < |job.files|
        invariant 0 <= n <= |job.files|
        invariant WriteAll(env, FRESH, job.files) == WriteAll(env, instance.Box(), job.files[n..])
        invariant instance.OnlyOwnBox()
      {
        assert job.files[n..][1..] == job.files[n + 1..];
        var ok := instance.CreateFile(env, job.files[n]);
        if !ok {
          return GraderError("create file error");
        }
        n := n + 1;
      }
      if job.runner.needCompile {
        var output, failed := instance.CompileUsing(env, job.runner.path);
        if failed {
          return Ran(output, RunMeta(COMPILE_FAILED, NO_TIME, 0));
        }
      }
      var output, err := instance.RunFromDir(env, p);
      if !err.Succeeded? {
        return GraderError(output);
      }
      var metadata := Sandbox.GetMetadata(env, instance.Box());
      if metadata.None? {
        return Error;
      }
      var status := StatusOf(metadata.value);
      return Ran(output, RunMeta(status, metadata.value.wallTime, metadata.value.memory));
    }

    /** The end of RunTestCase: the sandbox's verdict, unless the memory limit was exceeded. */
    method StatusOf(m: Metadata) returns (status: Status)
      ensures status == Classify(m, job.limits)
    {
      status := RUN_PASSED;
      if m.failedStatus != "" {
        if m.failedStatus == "TO" {
          status := TIME_LIMIT_EXCEEDED;
        } else if m.failedStatus == "RE" {
          status := RUNTIME_ERROR;
        } else if m.failedStatus == "SG" {
          status := SIGNAL_ERROR;
        } else if m.failedStatus == "XX" {
          status := GRADER_ERROR;
        }
        if job.limits.memory != 0 && m.memory > job.limits.memory {
          status := MEMORY_LIMIT_EXCEEDED;
        }
      }
    }

    method CompareOutput(cancelled: bool, cmp: LocalCompare, output: string, expected: string)
      returns (r: Ended<Outcome>)
      modifies service
      ensures r.Blocked? <==> old(service.gradeBoxIds) == []
      ensures r.Value? ==> !cancelled && r.value == G.CompareOutput(env, cmp, output, expected) && Rotated()
      ensures forall b :: old(service.gradeBoxIds) == [] || b != old(service.gradeBoxIds)[0] ==>
                service.BoxAt(b) == old(service.BoxAt(b))
    {
      if service.gradeBoxIds == [] {
        return Blocked;
      }
      var instance := service.NewGradeInstance();
      var alive := instance.Init(cancelled);
      if !alive {
        return Exited;
      }
      var o := CompareInBox(instance, cmp, output, expected);
      alive := instance.Cleanup();
      return if alive then Value(o) else Exited;
    }

    method CompareInBox(instance: IsolateInstance, cmp: LocalCompare, output: string, expected: string)
      returns (o: Outcome)
      requires instance.service == service && instance.Box() == FRESH
      modifies service`disk
      ensures o == G.CompareOutput(env, cmp, output, expected)
      ensures instance.OnlyOwnBox()
    {
      hide Preamble;
      hide ScriptMissing;
      TwoWrites(env, File("output", output), File("sol_output", expected));
      var ok := instance.CreateFile(env, File("output", output));
      if !ok {
        return Error;
      }
      ok := instance.CreateFile(env, File("sol_output", expected));
      if !ok {
        return Error;
      }
      assert WriteAll(env, FRESH, [File("output", output), File("sol_output", expected)]) == Some(instance.Box());
      match env.readConfig(cmp.path + "/run_script.sh") {
        case NotExist =>
          return Compared(ScriptMissing(env, cmp));
        case ReadError =>
          return Error;
        case Content(script) =>
          ok := instance.CreateFile(env, File("run_script.sh", Preamble(cmp) + script));
          if !ok {
            return Error;
          }
          var _, failed := instance.RunWithDir(env, cmp.path);
          if failed {
            return Error;
          }
          var result := GetCompareResult(instance.Box());
          return if result.Some? then Compared(result.value) else Error;
      }
    }

    /** A failed case is None. */
    method GetTestCaseResult(cancelled: bool, tc: TestCase) returns (r: Ended<Option<TestCaseResult<Float32>>>)
      requires job.compare.Some?
      modifies service
      ensures r.Blocked? <==> old(service.gradeBoxIds) == []
      ensures r.Value? ==> !cancelled && r.value == GradeCase(env, job, tc) && SamePools()
    {
      hide G.RunTestCase;
      hide G.CompareOutput;
      hide ProgramOf;
      var run := RunTestCase(cancelled, tc);
      if !run.Value? {
        return if run.Blocked? then Blocked else Exited;
      }
      RotationIsPermutation(old(service.gradeBoxIds));
      if !run.value.Ran? {
        return Value(None);
      }
      var output, meta := run.value.output, run.value.meta;
      var status, message := meta.status, output;
      if status == RUN_PASSED {
        RotationIsPermutation(service.gradeBoxIds);
        var compared := CompareOutput(cancelled, job.compare.value, output, tc.output);
        if !compared.Value? {
          return Exited;
        }
        if !compared.value.Compared? {
          return Value(None);
        }
        if compared.value.result != "" {
          status := RUN_FAILED;
        }
        message := compared.value.result;
      }
      return Value(Some(TestCaseResult(tc.id, status, tc.input, TruncateOutput(output), message,
                                       meta.wallTime, meta.memory)));
    }

    /** Result, for one group. After a failed case the context is cancelled, but the loop goes on launching. */
    method Result(jobCancelled: bool, g: TestCaseGroup) returns (r: Ended<Option<GroupOutcome>>)
      requires job.compare.Some?
      modifies service
      ensures r.Blocked? <==> old(service.gradeBoxIds) == [] && g.testCases != []
      ensures r.Value? ==> r.value == GradeGroup(env, job, g) && SamePools()
    {
      hide GradeCase;
      hide Total;
      hide Collect;
      EmptyTotal();
      EmptyCollect(CaseGrader(env, job));
      var results: seq<TestCaseResult<Float32>> := [];
      var someFailed, wallTime, memory := false, Exact(0), 0;
      var err := false;
      var f := CaseGrader(env, job);
      var n := 0;
      while n < |g.testCases|
        invariant 0 <= n <= |g.testCases|
        invariant SamePools()
        invariant err <==> Collect(f, g.testCases[..n]).None?
        invariant !err ==> Collect(f, g.testCases[..n]) == Some(results)
        invariant !err ==> Total(Mapped(OfCase, results)) == Tally(0, wallTime, memory, 0, someFailed)
        invariant n > 0 ==> old(service.gradeBoxIds) != []
        invariant err ==> n > 0
      {
        CollectOneMore(f, g.testCases, n);
        var one := GetTestCaseResult(jobCancelled || err, g.testCases[n]);
        if !one.Value? {
          return if one.Blocked? then Blocked else Exited;
        }
        if one.value.None? {
          err := true;
        } else {
          var tcr := one.value.value;
          TotalOneMore(OfCase, results, tcr);
          if !someFailed && tcr.status != RUN_PASSED {
            someFailed := true;
          }
          results := results + [tcr];
          wallTime := AddTime(wallTime, TimeOf(tcr.wallTime));
          memory := Add32(memory, tcr.memory);
        }
        n := n + 1;
      }
      assert g.testCases[..n] == g.testCases;
      if err {
        return Value(None);
      }
      var score := g.score;
      if someFailed {
        score := 0;
      }
      return Value(Some(GroupOutcome(TestCaseGroupResult(g.id, score, results),
                                     Tally(score, wallTime, memory, Wrap32(|results|), someFailed))));
    }

    predicate HasCase() {
      exists g :: 0 <= g < |job.groups| && job.groups[g].testCases != []
    }

    /** The part of Grade up to eg.Wait: its result list, status and totals. */
    method GradeGroups() returns (end: Ended<bool>, results: seq<TestCaseGroupResult<Float32>>, status: Status,
                                  totalScore: int32, totalWallTime: Time, totalMemory: int32, totalTestCases: int32)
      requires job.compare.Some?
      modifies service
      ensures end.Blocked? ==> old(service.gradeBoxIds) == [] && HasCase()
      ensures end.Value? ==> old(service.gradeBoxIds) != [] || !HasCase()
      ensures end.Value? ==> SamePools()
      ensures end.Value? ==> (end.value <==> Collect(GroupGrader(env, job), job.groups).None?)
      ensures end.Value? && !end.value ==>
                var os := Collect(GroupGrader(env, job), job.groups).value;
                && results == Mapped(ResultOf, os) && (status == RUN_PASSED || status == RUN_FAILED)
                && Total(Mapped(TallyOf, os)) ==
                   Tally(totalScore, totalWallTime, totalMemory, totalTestCases, status == RUN_FAILED)
    {
      hide GradeGroup;
      hide Add32;
      hide Wrap32;
      hide Mapped;
      hide Plus;
      hide Total;
      hide Collect;
      EmptyTotals();
      EmptyCollect(GroupGrader(env, job));
      results, status := [], RUN_PASSED;
      totalScore, totalWallTime, totalMemory, totalTestCases := 0, Exact(0), 0, 0;
      var err := false;
      ghost var outcomes: seq<GroupOutcome> := [];
      var f := GroupGrader(env, job);
      var n := 0;
      while n < |job.groups|
        invariant 0 <= n <= |job.groups|
        invariant SamePools()
        invariant old(service.gradeBoxIds) != [] || forall g :: 0 <= g < n ==> job.groups[g].testCases == []
        invariant err <==> Collect(f, job.groups[..n]).None?
        invariant !err ==> Collect(f, job.groups[..n]) == Some(outcomes) && results == Mapped(ResultOf, outcomes)
        invariant status == RUN_PASSED || status == RUN_FAILED
        invariant !err ==> Total(Mapped(TallyOf, outcomes)) ==
                           Tally(totalScore, totalWallTime, totalMemory, totalTestCases, status == RUN_FAILED)
      {
        CollectOneMore(f, job.groups, n);
        var one := Result(err, job.groups[n]);
        if !one.Value? {
          end := if one.Blocked? then Blocked else Exited;
          return;
        }
        if one.value.None? {
          err := true;
        } else {
          var o := one.value.value;
          GroupAdds(env, job, job.groups[n], outcomes, o);
          if o.tally.failed && status != RUN_FAILED {
            status := RUN_FAILED;
          }
          results := results + [o.result];
          outcomes := outcomes + [o];
          totalScore := Add32(totalScore, o.result.score);
          totalWallTime := AddTime(totalWallTime, o.tally.wallTime);
          totalMemory := Add32(totalMemory, o.tally.memory);
          totalTestCases := Add32(totalTestCases, Wrap32(|o.result.results|));
        }
        n := n + 1;
      }
      assert job.groups[..n] == job.groups;
      end := Value(err);
    }

    /** Blocked exactly where the pool is empty and a case is waiting, if the process does not exit first. */
    method Grade() returns (r: Ended<Option<GradeResult<Float32, Average>>>)
      modifies service
      ensures r.Blocked? ==> old(service.gradeBoxIds) == [] && job.compare.Some? && HasCase()
      ensures r.Value? ==> old(service.gradeBoxIds) != [] || job.compare.None? || !HasCase()
      ensures r.Value? ==> r.value == G.Grade(env, job) && SamePools()
    {
      hide GradeGroup;
      if job.compare.None? {
        return Value(Some(GradeResult(GRADER_ERROR, None, NO_AVERAGE, 0, 0)));
      }
      var end, results, status, totalScore, totalWallTime, totalMemory, totalTestCases := GradeGroups();
      if !end.Value? {
        return if end.Blocked? then Blocked else Exited;
      }
      if end.value {
        return Value(None);
      }
      var avgWallTime, avgMemory := NO_AVERAGE, 0;
      if totalTestCases > 0 {
        avgWallTime := Average(totalWallTime, totalTestCases);
        avgMemory := Wrap32(TruncDiv(totalMemory, totalTestCases));
      }
      return Value(Some(GradeResult(status, Some(results), avgWallTime, avgMemory, totalScore)));
    }
  }

  lemma TwoWrites(env: Env, a: File, b: File)
    ensures WriteAll(env, FRESH, [a, b]) ==
            if env.canWrite(FRESH, a) && env.canWrite(Write(FRESH, a), b) then Some(Write(Write(FRESH, a), b)) else None
  {
    assert [a, b][1..] == [b] && [b][1..] == [];
    assert WriteAll(env, Write(FRESH, a), [b]) ==
           if env.canWrite(Write(FRESH, a), b) then WriteAll(env, Write(Write(FRESH, a), b), [b][1..]) else None;
  }

  lemma EmptyTotals()
    ensures Total(Mapped(TallyOf, [])) == ZERO && Mapped(ResultOf, []) == []
  {
  }

  lemma EmptyTotal()
    ensures Total([]) == ZERO
  {
  }

  lemma EmptyCollect<T, R>(f: T -> Option<R>)
    ensures Collect(f, []) == Some([])
  {
  }

  /** What a group adds to the job's score and count is what its result shows. */
  lemma GroupTallyFits(env: Env, job: JobSpec, g: TestCaseGroup)
    requires GradeGroup(env, job, g).Some?
    ensures var o := GradeGroup(env, job, g).value;
            o.tally.score == o.result.score && o.tally.count == Wrap32(|o.result.results|)
  {
  }

  /** One more group in Grade's variables. */
  lemma GroupAdds(env: Env, job: JobSpec, g: TestCaseGroup, outcomes: seq<GroupOutcome>, o: GroupOutcome)
    requires GradeGroup(env, job, g) == Some(o)
    ensures Mapped(ResultOf, outcomes + [o]) == Mapped(ResultOf, outcomes) + [o.result]
    ensures var (before, after) := (Total(Mapped(TallyOf, outcomes)), Total(Mapped(TallyOf, outcomes + [o])));
            && after.score == Add32(before.score, o.result.score)
            && after.wallTime == AddTime(before.wallTime, o.tally.wallTime)
            && after.memory == Add32(before.memory, o.tally.memory)
            && after.count == Add32(before.count, Wrap32(|o.result.results|))
            && after.failed == (before.failed || o.tally.failed)
  {
    hide Wrap32;
    hide Add32;
    GroupTallyFits(env, job, g);
    hide GradeGroup;
    TotalOneMore(TallyOf, outcomes, o);
    MappedOneMore(ResultOf, outcomes, o);
  }

  lemma RotationIsPermutation(q: seq<int>)
    requires q != []
    ensures multiset(q[1..] + [q[0]]) == multiset(q)
  {
    assert q == [q[0]] + q[1..];
  }

  /** executor.Run: the playground's run, in a box of the run pool. */
  method Run(env: Env, service: IsolateService, p: Program) returns (r: Ended<Outcome>)
    modifies service
    ensures r.Blocked? <==> old(service.runBoxIds) == []
    ensures r.Value? ==> r.value == RunRequest(env, p)
    ensures r.Value? ==> service.runBoxIds == old(service.runBoxIds)[1..] + [old(service.runBoxIds)[0]]
                         && service.gradeBoxIds == old(service.gradeBoxIds)
    ensures forall b :: old(service.runBoxIds) == [] || b != old(service.runBoxIds)[0] ==>
              service.BoxAt(b) == old(service.BoxAt(b))
  {
    if service.runBoxIds == [] {
      return Blocked;
    }
    var instance := service.NewRunInstance();
    var alive := instance.Init(false);
    if !alive {
      return Exited;
    }
    var o := RunRequestInBox(env, instance, p);
    alive := instance.Cleanup();
    return if alive then Value(o) else Exited;
  }

  method RunRequestInBox(env: Env, instance: IsolateInstance, p: Program) returns (o: Outcome)
    requires instance.Box() == FRESH
    modifies instance.service`disk
    ensures o == RunRequest(env, p)
    ensures instance.OnlyOwnBox()
  {
    var n := 0;
    while n < |p.files|
      invariant 0 <= n <= |p.files|
      invariant WriteAll(env, FRESH, p.files) == WriteAll(env, instance.Box(), p.files[n..])
      invariant instance.OnlyOwnBox()
    {
      assert p.files[n..][1..] == p.files[n + 1..];
      var ok := instance.CreateFile(env, p.files[n]);
      if !ok {
        return Error;
      }
      n := n + 1;
    }
    if p.runner.needCompile {
      var output, failed := instance.CompileUsing(env, p.runner.path);
      if failed {
        return Reply(COMPILE_FAILED, output, NO_TIME, 0);
      }
    }
    var output, err := instance.RunFromDir(env, p);
    match err {
      case Succeeded =>
        var metadata := Sandbox.GetMetadata(env, instance.Box());
        if metadata.None? {
          return Error;
        }
        return Reply(RUN_PASSED, output, metadata.value.wallTime, metadata.value.memory);
      case ExitStatus(_) =>
        return Reply(RUN_FAILED, output, NO_TIME, 0);
      case OtherError =>
        return Error;
    }
  }
}
