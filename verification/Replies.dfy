/** The run handler of cmd/worker/worker.go, and what it publishes to a request's reply queue. */
module Replies {
  import opened Capture
  import opened Decoding
  import opened Floats
  import opened GoInt
  import opened Models
  import opened Json
  import opened JsonStrings
  import opened JsonValues
  import opened Metadata
  import opened Text
  import opened Sandbox
  import opened GradeSpec
  import opened Isolate
  import opened Executor
  import opened Outcomes

  const BROKER_MAX_MESSAGE_BYTES := 16 * 1024 * 1024
  const TOO_LARGE := "[result too large to return]"

  /** The body of a reply: a result as JSON, or nothing at all where json.Marshal failed. */
  datatype Message = Encoded(result: RunResult<Float32>) | Empty {
    function Size(): nat {
      if Encoded? && MarshalRun(result).Some? then |MarshalRun(result).value| else 0
    }
  }

  function Encode(r: RunResult<Float32>): Message {
    if MarshalRun(r).Some? then Encoded(r) else Empty
  }

  predicate Terminal(s: Status) { s != QUEUED && s != RUNNING }

  /**
   * How the master uses the replies: Run forwards them to a stream; a GenerateTestCases call collects the last one for
   * one of its cases.
   */
  datatype Kind = Streamed | Collected(call: nat, index: nat)

  /** The text of a UUID. */
  type ExecutionId = s: string | |s| <= 36 && forall c :: c in s ==> c < '\U{80}'

  /** A run request. Without a program its executor cannot be built: the runner is unknown. */
  datatype Request = Request(id: ExecutionId, kind: Kind, decodable: bool, program: Option<Program>)

  // ---- what the master reads ----------------------------------------------------------------------

  /** A string field as json.Unmarshal reads it out of its encoding. */
  function ReadBack(s: string): (r: string)
    ensures r == Sanitized(s)
    ensures r == s <==> ValidUtf8(s)
  {
    QuoteDecodes(s);
    RoundTripIff(s);
    Unquoted(QuotedBody(s))
  }

  /** The result that the master gets where the worker has sent r. */
  function Received(r: RunResult<Float32>): RunResult<Float32> {
    r.(id := ReadBack(r.id), output := ReadBack(r.output), compareResult := ReadBack(r.compareResult))
  }

  /** It is what can be read from the bytes that the worker has sent. */
  lemma ReceivedIsRead(r: RunResult<Float32>)
    requires r.wallTime.Number?
    ensures MarshalRun(r).Some? && FloatText(r.wallTime).Some?
    ensures var got := Received(r);
            Read(MarshalRun(r).value) ==
            Some(Object([("id", Str(got.id)), ("status", Str(StatusText(got.status))), ("output", Str(got.output)),
                         ("wall_time", Num(FloatText(got.wallTime).value)), ("memory", Num(Itoa(got.memory))),
                         ("exit_code", Num(Itoa(got.exitCode))), ("compare_result", Str(got.compareResult))]))
  {
    hide MarshalRun, Read, ReadBack, FloatText;
    RunIsRead(r);
    FloatIsShort(r.wallTime);
  }

  lemma AsciiIsReadBack(s: string)
    requires forall c :: c in s ==> c < '\U{80}'
    ensures ReadBack(s) == s
  {
    AsciiIsValid(s);
  }

  lemma {:induction false} AsciiIsValid(s: string)
    requires forall c :: c in s ==> c < '\U{80}'
    ensures ValidUtf8(s)
  {
    hide RuneLength;
    if s != "" {
      assert s[0] in s && forall c :: c in s[1..] ==> c in s;
      AsciiIsValid(s[1..]);
    }
  }

  // ---- specification ------------------------------------------------------------------------------

  function Bare(id: string, status: Status, output: string): RunResult<Float32> {
    RunResult(id, status, output, NO_TIME, 0, 0, "")
  }

  function Note(id: string, status: Status): Message {
    Encode(Bare(id, status, ""))
  }

  /** executor.Run's result; None is an error. */
  function RunResultOf(env: Env, p: Program): Option<RunResult<Float32>> {
    match RunRequest(env, p)
    case Answered(r) => Some(r)
    case _ => None
  }

  function ResultMessage(id: string, r: RunResult<Float32>): Message {
    var m := Encode(r.(id := id));
    if m.Size() > BROKER_MAX_MESSAGE_BYTES then Encode(Bare(id, GRADER_ERROR, TOO_LARGE)) else m
  }

  function RepliesTo(env: Env, q: Request): seq<Message> {
    if !q.decodable then []
    else if q.program.None? then [Note(q.id, GRADER_ERROR)]
    else
      match RunResultOf(env, q.program.value)
      case None => [Note(q.id, RUNNING), Note(q.id, GRADER_ERROR)]
      case Some(r) => [Note(q.id, RUNNING), ResultMessage(q.id, r)]
  }

  /** The request is decoded, and its result, if it gets that far, has a JSON form. */
  predicate Answerable(env: Env, q: Request) {
    q.decodable && (q.program.Some? && RunResultOf(env, q.program.value).Some? ==>
                      RunResultOf(env, q.program.value).value.wallTime.Number?)
  }

  predicate IsTerminal(m: Message) { m.Encoded? && Terminal(m.result.status) }

  predicate IsProgress(m: Message) { m.Encoded? && m.result.status == RUNNING }

  // ---- properties ---------------------------------------------------------------------------------

  lemma SmallMessage(id: string, status: Status, output: string)
    ensures Encode(Bare(id, status, output)) == Encoded(Bare(id, status, output))
    ensures Encode(Bare(id, status, output)).Size() <= 6 * |id| + 6 * |output| + 260
  {
    hide QuotedBody, Itoa, StatusText, FloatText;
    FloatIsShort(NO_TIME);
    QuoteIsLegal(id);
    QuoteIsLegal(output);
    QuoteIsLegal("");
    StatusQuote(status);
    IntIsShort(0);
  }

  lemma StatusQuote(s: Status)
    ensures |Quote(StatusText(s))| <= 128
  {
    hide QuotedBody, StatusText;
    QuoteIsLegal(StatusText(s));
  }

  lemma ResultIsEncoded(r: RunResult<Float32>)
    ensures MarshalRun(r).Some? <==> r.wallTime.Number?
  {
    FloatIsShort(r.wallTime);
  }

  /** executor.Run never reports a status that the master would take for progress. */
  lemma RunIsTerminal(env: Env, p: Program)
    requires RunResultOf(env, p).Some?
    ensures Terminal(RunResultOf(env, p).value.status)
  {
  }

  lemma ResultMessageShape(env: Env, id: string, p: Program)
    requires RunResultOf(env, p).Some?
    ensures var (r, m) := (RunResultOf(env, p).value, ResultMessage(id, RunResultOf(env, p).value));
            && (m.Empty? <==> !r.wallTime.Number?)
            && (m.Encoded? ==> m.result.id == id && Terminal(m.result.status))
            && (6 * |id| + 428 <= BROKER_MAX_MESSAGE_BYTES ==> m.Size() <= BROKER_MAX_MESSAGE_BYTES)
  {
    hide MarshalRun, RunResultOf;
    RunIsTerminal(env, p);
    ResultIsEncoded(RunResultOf(env, p).value.(id := id));
    SmallMessage(id, GRADER_ERROR, TOO_LARGE);
  }

  /**
   * A decoded request is announced at most once and then answered once, in that order and under its own id; the answer
   * is missing exactly where the run's wall time has no JSON form.
   */
  lemma RepliesShape(env: Env, q: Request)
    ensures RepliesTo(env, q) == [] <==> !q.decodable
    ensures Answerable(env, q) ==> q.decodable
    ensures |RepliesTo(env, q)| <= 2
    ensures forall m :: m in RepliesTo(env, q) && m.Encoded? ==> m.result.id == q.id
    ensures |RepliesTo(env, q)| == 2 ==> IsProgress(RepliesTo(env, q)[0])
    ensures q.decodable ==>
              var last := RepliesTo(env, q)[|RepliesTo(env, q)| - 1];
              if Answerable(env, q) then IsTerminal(last) else last.Empty?
  {
    hide RunResultOf, Encode, ResultMessage;
    SmallMessage(q.id, GRADER_ERROR, "");
    SmallMessage(q.id, RUNNING, "");
    if q.decodable && q.program.Some? && RunResultOf(env, q.program.value).Some? {
      ResultMessageShape(env, q.id, q.program.value);
    }
  }

  /** No reply to a request is over the broker's limit. */
  lemma RepliesFit(env: Env, q: Request)
    ensures forall m :: m in RepliesTo(env, q) ==> m.Size() <= 16 * 1024 * 1024
  {
    hide RunResultOf, Encode, ResultMessage, MarshalRun;
    SmallMessage(q.id, GRADER_ERROR, "");
    SmallMessage(q.id, RUNNING, "");
    if q.decodable && q.program.Some? && RunResultOf(env, q.program.value).Some? {
      ResultMessageShape(env, q.id, q.program.value);
    }
  }

  /** The answer is the run's own result whenever that is not over the broker's limit, and says so when it is. */
  lemma AnswerIsTheResult(env: Env, q: Request, r: RunResult<Float32>)
    requires Answerable(env, q) && q.program.Some? && RunResultOf(env, q.program.value) == Some(r)
    ensures var own := r.(id := q.id);
            var last := RepliesTo(env, q)[|RepliesTo(env, q)| - 1];
            if Encoded(own).Size() <= BROKER_MAX_MESSAGE_BYTES then last == Encoded(own)
            else last == Encoded(Bare(q.id, GRADER_ERROR, TOO_LARGE))
  {
    hide RunResultOf, MarshalRun;
    ResultIsEncoded(r.(id := q.id));
    SmallMessage(q.id, GRADER_ERROR, TOO_LARGE);
  }

  // ---- what the replies say of the run ------------------------------------------------------------

  /** The reply that holds just a status and a text. */
  function Saying(id: string, status: Status, text: string): Message {
    Encoded(RunResult(id, status, text, Number(false, "", 0), 0, 0, ""))
  }

  lemma TextIsNoShorter(r: RunResult<Float32>)
    ensures MarshalRun(r).Some? ==> |r.output| <= |MarshalRun(r).value|
  {
    hide QuotedBody, FloatText, StatusText, Itoa;
    QuoteIsNoShorter(r.output);
  }

  /** Cutting an output at 16 MiB does not make its result fit. */
  lemma CutIsNoHelp(own: RunResult<Float32>, kept: string)
    requires Captures(kept, own.output) && own.wallTime.Number?
    ensures Encode(own.(output := kept)).Size() <= 16 * 1024 * 1024 <==> Encode(own).Size() <= 16 * 1024 * 1024
    ensures Encode(own).Size() <= 16 * 1024 * 1024 ==> kept == own.output
  {
    hide MarshalRun;
    ResultIsEncoded(own);
    ResultIsEncoded(own.(output := kept));
    TextIsNoShorter(own);
    TextIsNoShorter(own.(output := kept));
    if |own.output| <= 16 * 1024 * 1024 {
      assert kept == own.output[..|kept|] == own.output;
      assert own.(output := kept) == own;
    } else {
      CutIsTooLarge(own.(output := kept));
    }
  }

  lemma CutIsTooLarge(r: RunResult<Float32>)
    requires |r.output| == 16 * 1024 * 1024 && r.wallTime.Number?
    ensures Encode(r).Size() > 16 * 1024 * 1024
  {
    hide QuotedBody, FloatText, StatusText, Itoa;
    FloatIsShort(r.wallTime);
    QuoteIsNoShorter(r.output);
  }

  /**
   * A run that ends with a status is announced, and then answered with that status, all that it printed, and the time
   * and memory that were reported, unless that is over 16 MiB as JSON, or the time has no JSON form.
   */
  lemma RunIsAnswered(env: Env, q: Request, p: Program, status: Status, printed: string, wallTime: Float32,
                      memory: int32)
    requires q.decodable && q.program == Some(p) && RunEnds(env, p, status, printed, wallTime, memory)
    ensures var own := Encode(RunResult(q.id, status, printed, wallTime, memory, 0, ""));
            && (own.Empty? <==> !wallTime.Number?)
            && RepliesTo(env, q) ==
               [Saying(q.id, RUNNING, ""),
                if own.Size() <= 16 * 1024 * 1024 then own
                else Saying(q.id, GRADER_ERROR, "[result too large to return]")]
  {
    hide RunRequest, RunEnds, MarshalRun;
    RunRequestsAreTold(env, p, status, printed, wallTime, memory);
    SmallMessage(q.id, RUNNING, "");
    SmallMessage(q.id, GRADER_ERROR, TOO_LARGE);
    var kept := RunRequest(env, p).result_.output;
    var own := RunResult(q.id, status, printed, wallTime, memory, 0, "");
    ResultIsEncoded(own);
    ResultIsEncoded(own.(output := kept));
    if wallTime.Number? { CutIsNoHelp(own, kept); }
  }

  /** All other requests that are decoded are told GRADER_ERROR: at once if the runner is unknown, or after RUNNING. */
  lemma OthersAreAnswered(env: Env, q: Request)
    requires q.decodable
    ensures q.program.None? ==> RepliesTo(env, q) == [Saying(q.id, GRADER_ERROR, "")]
    ensures q.program.Some? && !(exists status, printed, wallTime, memory ::
                                   RunEnds(env, q.program.value, status, printed, wallTime, memory)) ==>
              RepliesTo(env, q) == [Saying(q.id, RUNNING, ""), Saying(q.id, GRADER_ERROR, "")]
  {
    hide RunRequest, RunEnds, MarshalRun;
    SmallMessage(q.id, RUNNING, "");
    SmallMessage(q.id, GRADER_ERROR, "");
    if q.program.Some? { RunRequestErrsIff(env, q.program.value); }
  }

  /** A decoded request is answered unless its run ends with a wall time that is no finite number. */
  lemma AnswerableIff(env: Env, q: Request)
    ensures Answerable(env, q) <==>
            q.decodable && (q.program.Some? ==>
              forall status, printed, wallTime, memory ::
                RunEnds(env, q.program.value, status, printed, wallTime, memory) ==> wallTime.Number?)
  {
    hide RunRequest, RunEnds;
    if q.program.Some? {
      var p := q.program.value;
      RunRequestErrsIff(env, p);
      forall status, printed, wallTime, memory | RunEnds(env, p, status, printed, wallTime, memory)
        ensures RunRequest(env, p).Answered? && RunRequest(env, p).result_.wallTime == wallTime
      {
        RunRequestsAreTold(env, p, status, printed, wallTime, memory);
      }
      if RunRequest(env, p).Answered? { RunRequestEnds(env, p); }
    }
  }

  /** A run that isolate reports a wall time of "nan" for is announced and then answered with an empty body. */
  lemma NanIsNotAnswered(env: Env, q: Request, p: Program, box: Box)
    requires q.decodable && q.program == Some(p) && TakesNan(env.parseFloat)
    requires !p.runner.needCompile && WriteAll(env, FRESH, p.files) == Some(box)
    requires env.run(box, p).exit.Succeeded? && env.run(box, p).box.meta == Some(NAN_REPORT)
    ensures RepliesTo(env, q) == [Saying(q.id, RUNNING, ""), Empty]
  {
    hide MarshalRun, WriteAll, RepliesTo, Parse, BoxWith, Writable;
    NanIsParsed(env.parseFloat);
    WriteAllIff(env, p.files);
    var e := env.run(box, p);
    assert Executes(env, p, e) && Reports(env, e, Parse(env.parseFloat, NAN_REPORT).value);
    assert RunEnds(env, p, RUN_PASSED, e.stdout, NaN, 0);
    hide RunEnds, Executes, Reports;
    RunIsAnswered(env, q, p, RUN_PASSED, e.stdout, NaN, 0);
  }

  // ---- the handler --------------------------------------------------------------------------------

  class ReplyQueue {
    var messages: seq<Message>

    constructor ()
      ensures messages == []
    {
      messages := [];
    }

    method Publish(m: Message)
      modifies this
      ensures messages == old(messages) + [m]
    {
      messages := messages + [m];
    }
  }

  /** The consumer of the "run" queue; false is a handler error. */
  method HandleRun(env: Env, service: IsolateService, body: Request, replyTo: ReplyQueue) returns (end: Ended<bool>)
    modifies service, replyTo
    ensures end.Blocked? <==> body.decodable && body.program.Some? && old(service.runBoxIds) == []
    ensures end.Value? ==> replyTo.messages == old(replyTo.messages) + RepliesTo(env, body)
    ensures end.Value? ==> (end.value <==> body.decodable)
    ensures end.Value? ==> |service.runBoxIds| == |old(service.runBoxIds)|
                           && multiset(service.runBoxIds) == multiset(old(service.runBoxIds))
    ensures !end.Value? ==> replyTo.messages == old(replyTo.messages) + [Note(body.id, RUNNING)]
  {
    hide MarshalRun;
    if !body.decodable {
      return Value(false);
    }
    if body.program.None? {
      replyTo.Publish(Note(body.id, GRADER_ERROR));
      return Value(true);
    }
    replyTo.Publish(Note(body.id, RUNNING));

    var ran := Executor.Run(env, service, body.program.value);
    if !ran.Value? {
      return if ran.Blocked? then Blocked else Exited;
    }
    RotationIsPermutation(old(service.runBoxIds));
    if !ran.value.Answered? {
      replyTo.Publish(Note(body.id, GRADER_ERROR));
      return Value(true);
    }
    var bytes := Encode(ran.value.result_.(id := body.id));
    if bytes.Size() > BROKER_MAX_MESSAGE_BYTES {
      bytes := Encode(Bare(body.id, GRADER_ERROR, TOO_LARGE));
    }
    replyTo.Publish(bytes);
    return Value(true);
  }
}
