/** The grade handler of cmd/worker/worker.go, from a fetched task to the published verdict. */
module GradeReply {
  import opened Decimals
  import opened Decoding
  import opened Floats
  import opened GoInt
  import opened Json
  import opened JsonStrings
  import opened JsonValues
  import opened Models
  import opened Sandbox
  import opened Isolate
  import opened Publish
  import opened Text
  import G = GradeSpec
  import X = Executor
  import R = Replies
  import S = Scoring
  import E = Engine
  import T = EngineTheorems

  // ---- from Grade's result to bytes ---------------------------------------------------------------

  /** Grade's result with its average as a float32; `round` rounds numbers. */
  function WithFloats(round: (int, int) -> Float32, r: GradeResult<Float32, Average>): Result {
    GradeResult(r.status, r.groups, Rounded(round, r.avgWallTime), r.avgMemory, r.score)
  }

  function TextOf(m: R.Message): string {
    if m.Encoded? && MarshalRun(m.result).Some? then MarshalRun(m.result).value else ""
  }

  /** What is published for a request whose task was fetched; `job` is None where the executor cannot be built. */
  function RepliesTo(env: Env, round: (int, int) -> Float32, id: string, job: Option<G.JobSpec>): seq<string> {
    if job.None? then [TextOf(R.Note(id, GRADER_ERROR))]
    else
      match G.Grade(env, job.value)
      case None => [TextOf(R.Note(id, RUNNING)), TextOf(R.Note(id, GRADER_ERROR))]
      case Some(r) => [TextOf(R.Note(id, RUNNING)), Bounded(WithFloats(round, r))]
  }

  function VerdictOf(round: (int, int) -> Float32, r: GradeResult<Float32, Average>): VerdictText
    requires Rounded(round, r.avgWallTime).Number?
  {
    FloatIsShort(Rounded(round, r.avgWallTime));
    VerdictText(StatusText(r.status), FloatText(Rounded(round, r.avgWallTime)).value,
                Some(r.avgMemory as int), Some(r.score as int))
  }

  /** A reply that holds just an id and a status, as it is read. */
  function Told(id: string, status: string): Value {
    Object([("id", Str(Sanitized(id))), ("status", Str(status)), ("output", Str("")), ("wall_time", Num("0")),
            ("memory", Num("0")), ("exit_code", Num("0")), ("compare_result", Str(""))])
  }

  lemma SayingIsRead(id: string, status: Status)
    ensures Read(TextOf(R.Saying(id, status, ""))) == Some(Told(id, StatusText(status)))
  {
    hide MarshalRun, StatusText, Read;
    RunIsRead(R.Saying(id, status, "").result);
    R.ResultIsEncoded(R.Saying(id, status, "").result);
    assert FloatText(Number(false, "", 0)) == Some("0") && Itoa(0) == "0" && Sanitized("") == "";
  }

  /** All replies but a grade that could be made: what is read from them, and when they are published. */
  lemma GradeRequestsAreTold(env: Env, round: (int, int) -> Float32, id: string, job: Option<G.JobSpec>)
    ensures var replies := RepliesTo(env, round, id, job);
            && (job.None? ==> |replies| == 1 && Read(replies[0]) == Some(Told(id, "GRADER_ERROR")))
            && (job.Some? ==> |replies| == 2 && Read(replies[0]) == Some(Told(id, "RUNNING")))
            && (job.Some? && G.Grade(env, job.value).None? ==> Read(replies[1]) == Some(Told(id, "GRADER_ERROR")))
  {
    hide G.Grade, Bounded, MarshalRun, Read, Told, TextOf;
    R.SmallMessage(id, RUNNING, "");
    R.SmallMessage(id, GRADER_ERROR, "");
    SayingIsRead(id, RUNNING);
    SayingIsRead(id, GRADER_ERROR);
  }

  /**
   * What can be read from a published grade: RUN_PASSED if all cases pass, and otherwise RUN_FAILED; the int32 sum of
   * the scores of the groups without a failing case; and the exact mean of all wall times, rounded.
   */
  lemma PublishedGradesAreTold(env: Env, round: (int, int) -> Float32, id: string, job: G.JobSpec)
    requires job.compare.Some? && G.Grade(env, job).Some? && G.Grade(env, job).value.groups.Some?
    requires 0 < S.CaseCount(job.groups) < 0x8000_0000 && S.AllTimed(G.Grade(env, job).value.groups.value)
    requires round(S.Sum(S.AllUnits(G.Grade(env, job).value.groups.value)), S.CaseCount(job.groups)).Number?
    ensures |RepliesTo(env, round, id, Some(job))| == 2
    ensures var r := G.Grade(env, job).value;
            var avg := round(S.Sum(S.AllUnits(r.groups.value)), S.CaseCount(job.groups));
            var told := ReadVerdict(RepliesTo(env, round, id, Some(job))[1]);
            && told.status == (if forall g :: 0 <= g < |job.groups| ==> S.AllPass(env, job, job.groups[g].testCases)
                               then "RUN_PASSED" else "RUN_FAILED")
            && told.score == Some(Wrap32(S.Earned(env, job, job.groups)) as int)
            && told.avgMemory == Some(r.avgMemory as int)
            && ReadDecimal(told.avgWallTime) == Some(Units(avg))
  {
    hide G.Grade, ReadVerdict, Bounded, MarshalRun, S.AllTimed, S.AllUnits, S.CaseCount, S.Sum, S.Earned, S.AllPass;
    var r := G.Grade(env, job).value;
    S.AverageTimeIsANumberIff(env, job);
    S.GradeIsAllOrNothing(env, job);
    VerdictIsAlwaysPublished(WithFloats(round, r));
    FloatIsRead(Rounded(round, r.avgWallTime));
  }

  /** No reply is over the broker's limit, and the last one tells the verdict of the sequential grading. */
  lemma RepliesTellTheVerdict(env: Env, round: (int, int) -> Float32, id: string, job: G.JobSpec)
    ensures 6 * |id| + 260 <= 16 * 1024 * 1024 ==>
              forall m :: m in RepliesTo(env, round, id, Some(job)) ==> |m| <= 16 * 1024 * 1024
    ensures var g := G.Grade(env, job);
            g.Some? && Rounded(round, g.value.avgWallTime).Number? ==>
              ReadVerdict(RepliesTo(env, round, id, Some(job))[1]) == VerdictOf(round, g.value)
  {
    hide G.Grade, ReadVerdict, Bounded, MarshalRun, R.Encode;
    R.SmallMessage(id, RUNNING, "");
    R.SmallMessage(id, GRADER_ERROR, "");
    var g := G.Grade(env, job);
    if g.Some? {
      VerdictIsAlwaysPublished(WithFloats(round, g.value));
    }
  }

  /**
   * End to end: whatever the interleaving of a worker's goroutines, a Grade call that returns a result has it published
   * with the verdict that grading the groups and cases one after the other gives, within 8 MiB.
   */
  lemma PublishedVerdictIsScheduleIndependent(cfg: E.Config, s: E.State, j: nat, round: (int, int) -> Float32)
    requires E.Reachable(cfg, s) && s.Up? && j < |cfg.jobs| && E.JobOf(s, j).ret.Returned?
    requires E.JobOf(s, j).ret.result.Some?
    ensures var published := Bounded(WithFloats(round, E.JobOf(s, j).ret.result.value));
            var g := G.Grade(cfg.env, cfg.jobs[j]);
            && g.Some?
            && |published| <= 8 * 1024 * 1024
            && (Rounded(round, g.value.avgWallTime).Number? ==> ReadVerdict(published) == VerdictOf(round, g.value))
  {
    hide G.Grade, ReadVerdict, Bounded, E.Reachable;
    T.GradeIsScheduleIndependent(cfg, s, j);
    VerdictIsAlwaysPublished(WithFloats(round, E.JobOf(s, j).ret.result.value));
  }

  /**
   * The published grade is empty if and only if its average wall time has no JSON form; for that it is enough that one
   * case reports a time that is not a number.
   */
  lemma OneTimeSpoilsTheGrade(env: Env, round: (int, int) -> Float32, id: string, job: G.JobSpec)
    requires job.compare.Some? && G.Grade(env, job).Some? && 0 < S.CaseCount(job.groups) < 0x8000_0000
    ensures var g := G.Grade(env, job).value;
            var published := RepliesTo(env, round, id, Some(job))[1];
            && (published == "" <==> !Rounded(round, g.avgWallTime).Number?)
            && (!S.AllTimed(g.groups.value) ==> published == "")
  {
    hide G.Grade, Bounded, S.AllTimed, S.CaseCount, MarshalRun;
    S.AverageTimeIsANumberIff(env, job);
    VerdictIsAlwaysPublished(WithFloats(round, G.Grade(env, job).value));
  }

  // ---- the handler --------------------------------------------------------------------------------

  class ByteQueue {
    var bodies: seq<string>

    method Publish(body: string)
      modifies this
      ensures bodies == old(bodies) + [body]
    {
      bodies := bodies + [body];
    }
  }

  method AllocateGroup(g: GroupResult) returns (r: GroupRef)
    ensures fresh(r.results) && GroupView(r) == g
  {
    var results := new CaseResult[|g.results|](i requires 0 <= i < |g.results| => g.results[i]);
    assert results[..] == g.results;
    r := GroupRef(g.id, g.score, results);
  }

  method AllocateGroups(gs: seq<GroupResult>) returns (made: seq<GroupRef>)
    ensures fresh(Arrays(made)) && GroupViews(made) == gs
  {
    made := [];
    for n := 0 to |gs|
      invariant |made| == n && forall k :: 0 <= k < n ==> fresh(made[k].results) && GroupView(made[k]) == gs[k]
    {
      var r := AllocateGroup(gs[n]);
      made := made + [r];
    }
  }

  /** The object that Grade returns, whose cases the publishing code blanks in place. */
  method Allocate(r: Result) returns (result: GradeResultRef)
    ensures fresh(result) && fresh(Arrays(result.Groups()))
    ensures result.View() == r
  {
    var refs: Option<seq<GroupRef>> := None;
    if r.groups.Some? {
      var made := AllocateGroups(r.groups.value);
      refs := Some(made);
    }
    result := new GradeResultRef(r.status, refs, r.avgWallTime, r.avgMemory, r.score);
  }

  /** The consumer of the "grade" queue, once the task is fetched. */
  method HandleGrade(env: Env, round: (int, int) -> Float32, service: IsolateService, id: string,
                     job: Option<G.JobSpec>, replyTo: ByteQueue)
    returns (end: X.Ended<()>)
    modifies service, replyTo
    ensures end.Blocked? ==> old(service.gradeBoxIds) == []
    ensures end.Value? ==> replyTo.bodies == old(replyTo.bodies) + RepliesTo(env, round, id, job)
    ensures end.Value? ==> multiset(service.gradeBoxIds) == multiset(old(service.gradeBoxIds))
    ensures !end.Value? ==> replyTo.bodies == old(replyTo.bodies) + [TextOf(R.Note(id, RUNNING))]
  {
    hide G.Grade, Bounded, Marshal, MarshalRun, Fits, Strip;
    if job.None? {
      replyTo.Publish(TextOf(R.Note(id, GRADER_ERROR)));
      return X.Value(());
    }
    replyTo.Publish(TextOf(R.Note(id, RUNNING)));

    var executor := new X.TestCaseRunner(env, job.value, service);
    var graded := executor.Grade();
    if !graded.Value? {
      return if graded.Blocked? then X.Blocked else X.Exited;
    }
    if graded.value.None? {
      replyTo.Publish(TextOf(R.Note(id, GRADER_ERROR)));
      return X.Value(());
    }
    var result := Allocate(WithFloats(round, graded.value.value));
    var bytes := MarshalBoundedGradeResult(result);
    replyTo.Publish(bytes);
    return X.Value(());
  }
}
