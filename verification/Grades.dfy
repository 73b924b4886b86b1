/** What a grade result holds, field by field, from the request and what its runs and compares come to. */
module Grades {
  import opened Capture
  import opened Floats
  import opened Models
  import opened Sandbox
  import opened GradeSpec
  import opened Outcomes
  import opened Scoring

  // ---- one test case ------------------------------------------------------------------------------

  /**
   * A case is run with its own input, and compared with its own expected output only if the run passes; its result has
   * its own id and input, and up to 10000 bytes of the output. The message is what the compare says, or all of the
   * output if there is no compare.
   */
  lemma CasesAreTold(env: Env, job: JobSpec, tc: TestCase, cmp: LocalCompare)
    requires job.compare == Some(cmp)
    ensures var run := RunTestCase(env, Program(job.files, job.runner, tc.input, job.limits));
            var r := GradeCase(env, job, tc);
            && (!run.Ran? ==> r.None?)
            && (r.Some? ==>
                  && run.Ran? && r.value.id == tc.id && r.value.input == tc.input
                  && Displays(r.value.output, run.output)
                  && r.value.wallTime == run.meta.wallTime && r.value.memory == run.meta.memory)
            && (run.Ran? && run.meta.status != RUN_PASSED ==>
                  r.Some? && r.value.status == run.meta.status && r.value.message == run.output)
            && (run.Ran? && run.meta.status == RUN_PASSED ==>
                  var compared := CompareOutput(env, cmp, run.output, tc.output);
                  && (r.Some? <==> compared.Compared?)
                  && (r.Some? ==>
                        && r.value.message == compared.result
                        && r.value.status == if compared.result == "" then RUN_PASSED else RUN_FAILED))
  {
    hide RunTestCase, CompareOutput;
  }

  /**
   * A case passes if and only if its files were written, it was compiled if need be, the program succeeded, isolate's
   * report names no failure, and the compare has nothing to say about what was printed, as far as it was captured.
   */
  lemma PassesIff(env: Env, job: JobSpec, tc: TestCase, cmp: LocalCompare)
    requires job.compare == Some(cmp)
    ensures var p := Program(job.files, job.runner, tc.input, job.limits);
            Passes(env, job, tc) <==>
            exists e, m, output: string ::
              && Executes(env, p, e) && Reports(env, e, m) && NamesNoFailure(m, p.limits)
              && Captures(output, e.stdout) && CompareOutput(env, cmp, output, tc.output) == Compared("")
  {
    hide Executes, Reports, Captures, RunTestCase, CompareOutput, NamesNoFailure;
    var p := Program(job.files, job.runner, tc.input, job.limits);
    var o := RunTestCase(env, p);
    CasePassesIff(env, job, tc);
    forall output: string {
      RunPassesIff(env, p, output);
    }
  }

  // ---- groups and jobs ----------------------------------------------------------------------------

  lemma GroupsAreTold(env: Env, job: JobSpec, g: TestCaseGroup)
    requires GradeGroup(env, job, g).Some?
    ensures var r := GradeGroup(env, job, g).value.result;
            && r.id == g.id && |r.results| == |g.testCases|
            && r.score == (if AllPass(env, job, g.testCases) then g.score else 0)
            && forall i :: 0 <= i < |g.testCases| ==> GradeCase(env, job, g.testCases[i]) == Some(r.results[i])
  {
    hide GradeCase, AllPass;
    GroupFailsIff(env, job, g);
    var f := CaseGrader(env, job);
    var rs := Collect(f, g.testCases).value;
    forall i | 0 <= i < |g.testCases| ensures GradeCase(env, job, g.testCases[i]) == Some(rs[i]) {
      assert f(g.testCases[i]) == Some(rs[i]);
    }
  }

  lemma GroupErrsIff(env: Env, job: JobSpec, g: TestCaseGroup)
    ensures GradeGroup(env, job, g).None? <==>
            exists i :: 0 <= i < |g.testCases| && GradeCase(env, job, g.testCases[i]).None?
  {
    hide GradeCase;
    var f := CaseGrader(env, job);
    forall i | 0 <= i < |g.testCases| ensures f(g.testCases[i]) == GradeCase(env, job, g.testCases[i]) {}
  }

  /** Some case of some group cannot be graded. */
  ghost predicate SomeCaseErrs(env: Env, job: JobSpec) {
    exists g, i :: 0 <= g < |job.groups| && 0 <= i < |job.groups[g].testCases|
                   && GradeCase(env, job, job.groups[g].testCases[i]).None?
  }

  /**
   * Grading is an error exactly when some case's is. Otherwise the result lists the groups and cases of the request,
   * each under its own id and with its own outcome; a group has its score if all its cases pass, and otherwise none.
   */
  lemma GradesAreTold(env: Env, job: JobSpec)
    requires job.compare.Some?
    ensures Grade(env, job).None? <==> SomeCaseErrs(env, job)
    ensures Grade(env, job).Some? ==>
              && Grade(env, job).value.groups.Some?
              && var gs := Grade(env, job).value.groups.value;
                 && |gs| == |job.groups|
                 && forall g :: 0 <= g < |gs| ==>
                      var asked := job.groups[g];
                      && gs[g].id == asked.id && |gs[g].results| == |asked.testCases|
                      && gs[g].score == (if AllPass(env, job, asked.testCases) then asked.score else 0)
                      && forall i :: 0 <= i < |asked.testCases| ==>
                           GradeCase(env, job, asked.testCases[i]) == Some(gs[g].results[i])
  {
    hide GradeCase, GradeGroup, AllPass;
    var h := GroupGrader(env, job);
    forall g | 0 <= g < |job.groups|
      ensures h(job.groups[g]).None? <==>
              exists i :: 0 <= i < |job.groups[g].testCases| && GradeCase(env, job, job.groups[g].testCases[i]).None?
    {
      assert h(job.groups[g]) == GradeGroup(env, job, job.groups[g]);
      GroupErrsIff(env, job, job.groups[g]);
    }
    if Grade(env, job).Some? {
      var os := Collect(h, job.groups).value;
      var gs := Grade(env, job).value.groups.value;
      forall g | 0 <= g < |gs| ensures GradeGroup(env, job, job.groups[g]) == Some(os[g]) && gs[g] == os[g].result {
        assert h(job.groups[g]) == Some(os[g]);
      }
      forall g | 0 <= g < |gs| { GroupsAreTold(env, job, job.groups[g]); }
    }
  }

  /** Without a compare nothing is graded. */
  lemma NoCompareIsTold(env: Env, job: JobSpec)
    requires job.compare.None?
    ensures Grade(env, job) == Some(GradeResult(GRADER_ERROR, None, Average(Exact(0), 1), 0, 0))
  {
  }
}
