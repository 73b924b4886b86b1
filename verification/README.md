# Verified model of go-grader

go-grader grades programs. A master takes requests over gRPC and puts them on queues; workers take them off, run
the submitted program and a compare script in `isolate` sandboxes, and publish the outcome to the queue named in
the request. This project models that behaviour in Dafny and proves what it is meant to guarantee.

Check it with `dafny verify dfyconfig.toml`.

## How the model is laid out

**Grading** (`domain/services/executor.go`, `isolate.go`). `GradeSpec` says in a page what grading means, one group
and one case after the other, each in a box of its own. Two things are proved against it.

- `Isolate` and `Executor` are the source's objects and methods in imperative form, with each goroutine run to
  completion where it is launched. Every method returns the value of its specification and puts its boxes back.
- `Engine` is the same code as a system of interleaved atomic steps: any number of `Grade` and `Run` calls, a
  goroutine per group and per case, the channels of box ids, the contents of every box (never cleared by the model
  except where the source runs `--init` or `--cleanup`), the error groups with their limits and their cancellation,
  and the totals that goroutines add to in the order in which they finish. `EnginePool`, `EngineShape`,
  `EngineResults` and `EngineProgress` hold the invariants and the termination measure; `EngineTheorems` states
  what follows for every run, and `EngineFanOut` how many cases can be alive over all jobs. `BoxWork` relates a box that is reused to a private fresh one.

`Outcomes`, `Grades` and `Scoring` say what the specification comes to without using its functions: `Outcomes` for a run,
a playground run and a compare, from the outside world, isolate's report and what a reader of the compare's script finds;
`Grades` for every field of a case, a group and a job; `Scoring` for the score, the status and the averages. `Floats` has
float32 values by their shortest decimal forms, NaN and the infinities included, and unrounded sums of them.

**Publishing** (`cmd/worker/worker.go`). `Json` is the part of Go's `encoding/json` that the worker uses, down to
bytes: string escapes as in section 7 of RFC 8259 and the printed form of a float32. `JsonStrings` reads
strings back, `Decimals` numbers, and `JsonValues` whole texts; `Decoding` states what they find in every published
result. `Publish` is the three-stage publishing of a grade result, with the blanking in place, and a reader
that recovers the verdict from any published text. `GradeReply` composes grading and publishing end to end.

**The run protocol** (`cmd/master/master.go`, `cmd/worker/worker.go`). `Replies` is the `run` handler. `Protocol` is
the master's `Run` and `GenerateTestCases` calls, the shared request queue, the workers' handlers and a reply queue
a call, as interleaved steps; `ProtocolProofs` has its safety, `ProtocolAnswers` its termination and liveness, and
`Generate` what `GenerateTestCases` returns. Any number of `Run` and `GenerateTestCases` calls compete for the workers.
`Sorting` has the comparator and the sort, and `GenerateOrders` builds the runs that show when the order can go wrong.
`Master` has the two calls as imperative methods, with each request handled as soon as it is published.

**Set-up of compare scripts** (`internal/setup/setup.go`). `Setup` is one goroutine, `SetupRuns` every interleaving
of them over the directory tree, `SetupIndex` the list that is written afterwards and what `CompareOutput` reads,
`SetupExact` the configurations for which the list is always exact, and `Replace` the placeholder substitution.

`Capture` is the bounded output buffer and `Metadata` the parser of isolate's report. `GoInt`, `Text`, `Sequences`,
`Models` and `Sandbox` are the vocabulary: Go's int32 arithmetic, the `strings` and `strconv` functions that the
code calls, facts about permutations, the data types, and the outside world.

## Conventions

- The outside world is the value `Env`: deterministic, otherwise arbitrary functions for compiling, running and
  comparing (of the contents of the box and the inputs, never of the box id), for failing writes, for reading the
  configuration, for `strconv.ParseFloat` and for `%q`.
- `isolate --init` leaves an empty box without a metadata file, or fails.
- A Go string is a sequence of bytes; one `char` stands for one byte.
- `int32` totals wrap around as Go's do (`GoInt`). Each wall time is a float32 as it was parsed, NaN and infinities
  included. Their sums follow IEEE 754 but are not rounded, since rounding depends on the order of the summands; `round`
  turns the average into a float32 where it is printed.
- A fatal log, and `--init` or `--cleanup` failing, end the process: the absorbing states `Crashed` and `Exited`.
- A queued message is the value it encodes together with its encoded size; a body that could not be encoded is empty.
  Its receiver gets what is read from the encoded bytes (`Replies.ReceivedIsRead`).
- A shell script's `export` line is read as name and value, without the shell's quoting rules.
- A method that would wait for a box of an empty pool, or for a reply that never comes, returns `Blocked`.

## Findings

- `configs/env.go` lets both pool sizes be 0 (lines 80-82 and 93-95). A run that is stuck then has a call that hangs,
  exactly when some job with a compare has a case but there is no grade box, or there is a Run call but no run box
  (`EngineTheorems.StuckIsReturnedIff`).
- The comment at `domain/services/isolate.go:95-96` reads as a global bound on waiting goroutines. What holds is a bound
  a group. All jobs together stay within the number of boxes whenever their demand does: the sum over jobs of the four
  greatest groups, each counted with no more cases than there are boxes. For jobs of at most four groups they do so only
  then (`EngineFanOut.GlobalBoundIff`); two groups of two cases over two boxes do not
  (`EngineFanOut.FourCasesOverTwoBoxes`).
- The comparator of `GenerateTestCases` subtracts in int32. When all pairwise differences fit in int32 the result is in
  order (`Generate.GenerateTestCases`). A call of at most ten cases that does not fail is in order in every run exactly
  then (`GenerateOrders.AlwaysOrderedIff`); which executions end first can still make a single run lucky
  (`Sorting.LuckyArrival`, and `Sorting.TwoResponses` for two cases).
- The output that a client gets is what its program printed, all of it, if and only if that is valid UTF-8 and the
  result is not over the broker's limit: JSON replaces each byte that is not part of a character
  (`ProtocolAnswers.RunOutputIsOwnIff`, `Generate.OutputIsOwnIff`).
- The compare script is told the path of its program only if neither the directory nor the run name has a newline
  (`Outcomes.CompareIsTold`).
- `strconv.ParseFloat` accepts `nan` and `inf`. A run reported with such a wall time is answered with an empty body,
  which the master cannot decode (`Replies.NanIsNotAnswered`); a Run call is answered in all other cases
  (`ProtocolAnswers.RunCallsAreAnswered`). One such case among those that are graded makes the published grade empty
  (`GradeReply.OneTimeSpoilsTheGrade`). Whether isolate ever reports such a time is not visible here.
- `setupCompares` ignores the result of `os.RemoveAll`, and `writeToComparesJson` goes by the directories: the list is
  exactly the completed compares if and only if no removal failed (`SetupIndex.ListIsExactIff`). Whatever fails, it is
  exact if and only if no configured compare has a build script and each has its run file among its files
  (`SetupExact.AlwaysExactIff`).
- A path that ends in a part of `$RUN_NAME`, such as one ending in `$RUN_`, can complete a placeholder that was not
  there (`Replace.NoPlaceholderIsLeftIff`).

## Model

| member | source | states |
|---|---|---|
| EngineTheorems.InvInEveryRun | domain/services/executor.go:221-361 | The invariants of pools, launch cursors and totals hold in every state of every run |
| EngineTheorems.BoxesAreConserved | domain/services/isolate.go:50-114 | Free ids and held ids of each pool are disjoint and together exactly its ids, no two goroutines hold one box, and a holder's send finds room in the channel |
| EngineTheorems.BoxReuseIsInvisible | domain/services/isolate.go:176-209 | Between Init and Cleanup a goroutine's stage and box are those of the same work in a private fresh box, whatever earlier holders left |
| EngineTheorems.RunsSeeOwnFilesOnly | domain/services/executor.go:403-428 | A program starts in a box holding exactly the files of its own request, the last write of a name winning, and a compare in one with its own case's two data files and at most a script beside them |
| EngineTheorems.FanOutIsBounded | domain/services/executor.go:236-237 | At most 4 live groups a job, 2G live cases a group, and 2G grade boxes held over all jobs |
| EngineFanOut.LiveIsAtMostDemand | domain/services/isolate.go:95-99 | The live cases over all groups of all jobs are never more than the sum over jobs of the four greatest groups |
| EngineFanOut.DemandIsReached | domain/services/executor.go:235-237 | For jobs of at most four groups some interleaving has that many cases alive at once |
| EngineFanOut.GlobalBoundIff | domain/services/isolate.go:95-99 | For such jobs, live cases never outnumber the grade boxes iff the demand does not |
| EngineFanOut.GlobalBound | domain/services/isolate.go:95-99 | For jobs of any size, a demand within the number of boxes is enough |
| EngineFanOut.FourCasesOverTwoBoxes | domain/services/isolate.go:95-99 | One job of two groups of two cases reaches four live cases over two boxes |
| EngineTheorems.RunsAreBounded | domain/services/executor.go:238-275 | Every run of every interleaving is at most as long as the work it starts with, which each step uses up |
| EngineTheorems.StuckMeansReturned | domain/services/executor.go:273-346 | With boxes in the pools that are used, every reachable state in which some call has not returned has an enabled step |
| EngineTheorems.CanGoOnWithoutExit | domain/services/isolate.go:176-184 | With boxes in the pools that are used, and when no job's grading is an error, there is always a step that does not end the process |
| EngineTheorems.NeverCancelled | domain/services/executor.go:236-318 | A goroutine's context is cancelled only in a job whose sequential grading is an error |
| EngineTheorems.EmptyPoolHangs | configs/env.go:93-95 | With an amount of 0, a job with a compare and a test case never returns |
| EngineTheorems.UnservedNeverReturns | configs/env.go:72-95 | Without boxes in a pool that is used, no reachable state has all calls returned |
| EngineTheorems.StuckIsReturnedIff | configs/env.go:72-95 | A run that is stuck has all its calls returned iff there are boxes in the pools that are used |
| EngineTheorems.GradeIsScheduleIndependent | domain/services/executor.go:221-361 | A Grade call that returns has the status, score, averages and multiset of group results of sequential grading, and errors exactly when that does |
| EngineTheorems.RunIsScheduleIndependent | domain/services/executor.go:167-219 | A Run call's outcome is that of its request on a private fresh box |
| EngineTheorems.QuietAfterReturn | domain/services/executor.go:273-275 | When Grade returns, with a result or an error, none of its goroutines is alive or holds a box |
| EngineTheorems.AllBoxesBack | domain/services/isolate.go:194-203 | When every call has returned, each pool is whole again |
| EnginePool.StepKeepsBoxes | domain/services/isolate.go:80-114 | Every step of every goroutine keeps the accounting of box ids |
| EnginePool.Conservation | domain/services/isolate.go:50-69 | The accounting implies that free and held ids partition the pool, also by count |
| EngineShape.StepKeepsShape | domain/services/executor.go:235-275 | Every step keeps the launch order, the errgroup limits, and that a group ends after its cases and a job after its groups |
| EngineProgress.NoDeadlock | domain/services/executor.go:364-408 | While something is unfinished, an enabled step can be named, since no goroutine holds a box while waiting for another |
| EngineProgress.StepUsesWork | domain/services/executor.go:322-346 | The measure over unlaunched groups and cases and remaining steps decreases at every step |
| EngineResults.StepKeepsData | domain/services/executor.go:257-341 | Every step keeps that totals and result slices are those of the cases and groups folded so far, in the order they were folded |
| EngineResults.GroupComplete | domain/services/executor.go:344-361 | A group whose cases have all ended well holds its sequential result up to the order of cases |
| EngineResults.JobComplete | domain/services/executor.go:273-290 | A job whose groups have all ended well holds the sequential summary up to order |
| BoxWork.StepKeepsRest | domain/services/executor.go:410-467 | Each step in a box leaves what the remaining steps will make of it unchanged |
| BoxWork.RestIsMeaning | domain/services/executor.go:403-514 | Running all steps from a fresh box is the specification of RunTestCase, CompareOutput or Run |
| BoxWork.BoxHoldsOwnFilesOnly | domain/services/isolate.go:205-209 | After n writes a fresh box holds exactly those n files |
| GradeSpec.TotalOfPermutation | domain/services/executor.go:264-268 | Totals kept in wrapping int32 do not depend on the order of additions |
| Outcomes.WriteAllIff | domain/services/executor.go:410-417 | Writing files into a fresh box succeeds iff no single write fails, and then the box holds exactly them |
| Outcomes.RunsAreTold | domain/services/executor.go:403-468 | A file that cannot be written and a run that fails give GRADER_ERROR without time and memory, a failed compile COMPILE_FAILED with what the compiler printed, a report its own time, memory and the status of its code, a missing or malformed report an error; the output is what was printed, up to 16 MiB |
| Outcomes.RunPassesIff | domain/services/executor.go:410-461 | A run is RUN_PASSED with an output iff files, compiler and program succeeded, that was printed, and the report names no failure |
| Outcomes.RunRequestsAreTold | domain/services/executor.go:178-216 | A playground run ends RUN_PASSED, RUN_FAILED or COMPILE_FAILED with what was printed, up to 16 MiB, and the time and memory of its report |
| Outcomes.RunRequestErrsIff | domain/services/executor.go:173-203 | It is an error in exactly the other cases: a write that fails, exit status 127, a command that could not run, no well-formed report |
| Outcomes.CompareIsTold | domain/services/executor.go:470-514 | A compare runs in a box with just the output, the expected output and a script; the script exports the paths of the first two and of the compare's program, the latter iff it has no newline, and ends in the configured script; the result is the compare's own, and an error where a write or the compare fails |
| Outcomes.NoScriptIsTold | domain/services/executor.go:487-493 | Without a script the result is a complaint that names the compare, so the case fails; a script that cannot be read is an error |
| Executor.TestCaseRunner.RunTestCase | domain/services/executor.go:403-468 | Has the outcome that Outcomes.RunsAreTold tells, touches only its own box, gives the box back on every path, and blocks iff the pool is empty |
| Executor.TestCaseRunner.StatusOf | domain/services/executor.go:444-461 | The switch and the memory check that follows it give the status that Outcomes.RunsAreTold tells |
| Executor.TestCaseRunner.CompareOutput | domain/services/executor.go:470-514 | The same for a compare, with the outcome that Outcomes.CompareIsTold and Outcomes.NoScriptIsTold tell |
| Executor.TestCaseRunner.GetTestCaseResult | domain/services/executor.go:364-395 | Run and compare in two boxes taken one after the other give the case result that Grades.CasesAreTold tells |
| Executor.TestCaseRunner.Result | domain/services/executor.go:311-362 | The loop over cases gives the group result and totals of grading one case after the other, or an error where a case is one |
| Executor.TestCaseRunner.Grade | domain/services/executor.go:221-291 | The loop over groups gives the grade that Grades.GradesAreTold and Scoring tell, the pools hold the boxes they held, and it can block only on an empty pool with a case to grade, where it never returns |
| Executor.Run | domain/services/executor.go:167-219 | The playground's run has the outcome that Outcomes.RunRequestsAreTold tells, returns its box, and blocks iff the pool is empty |
| Grades.CasesAreTold | domain/services/executor.go:364-395 | A case runs with its own input and is compared with its own expected output only if the run passes; its result has its id and input, up to 10000 bytes of the output, the time and memory of the run, and as message what the compare says or else all of the output |
| Grades.PassesIff | domain/services/executor.go:370-467 | A case passes iff files, compiler and program succeeded, the report names no failure, and the compare accepts what was printed, up to 16 MiB |
| Grades.GradesAreTold | domain/services/executor.go:221-361 | Grading errs iff some case does; otherwise the result has every group and case of the request, each under its own id with its own outcome, and a group its score iff all its cases pass |
| Grades.NoCompareIsTold | domain/services/executor.go:222-226 | Without a compare the grade is GRADER_ERROR, without groups and with zeros |
| Isolate.IsolateService.constructor | domain/services/isolate.go:50-69 | The two channels start with ids 0..R-1 and R..R+2G-1 |
| Isolate.IsolateInstance.Init | domain/services/isolate.go:176-184 | Leaves the box fresh whatever was in it, or the process ends, as it must under a cancelled context |
| Isolate.IsolateInstance.Cleanup | domain/services/isolate.go:194-203 | Puts the id back at the end of its own channel, or the process ends |
| Isolate.IsolateInstance.RunWithDir | domain/services/isolate.go:366-395 | Exit status 1 of a compare counts as success, any other failure as an error |
| Isolate.IsolateInstance.RunFromDir | domain/services/isolate.go:397-435 | Exit status 127 becomes an error that no longer tells an exit status |
| Scoring.CasePassesIff | domain/services/executor.go:370-384 | A case passes iff its run is classified RUN_PASSED and its compare result is empty |
| Scoring.GradeIsAllOrNothing | domain/services/executor.go:260-351 | The score is the int32 sum over groups without a failing case, and the status is RUN_PASSED iff no case failed |
| Scoring.AverageMemoryIsTruncated | domain/services/executor.go:266-282 | The average memory is the int32 total over all listed cases, divided by the number of requested cases and truncated toward zero; 0 without cases |
| Scoring.AverageMemoryIsTheMean | domain/services/executor.go:266-282 | For non-negative memories with a total below 2^31, the average is the floor of the mean over all requested cases, between least and greatest |
| Scoring.AverageTimeIsTheMean | domain/services/executor.go:265-281 | The average wall time is the sum of the wall times of all listed cases over the number of requested cases; 0 without cases |
| Scoring.SumIsUndefinedIff | domain/services/executor.go:265-280 | A sum of wall times is not a number iff one of them is not, or infinities of both signs occur |
| Scoring.AverageTimeIsANumberIff | domain/services/executor.go:265-281 | The average wall time is a number iff every case's is, and then the exact mean of their decimal values |
| Scoring.NanReachesTheResult | domain/services/executor.go:437-467 | A run reported with a wall time of nan keeps it in its case's result |
| Capture.LimitedBuffer.Write | domain/services/isolate.go:28-40 | Reports the full length and keeps what one more write adds to the bounded capture |
| Capture.CaptureRefinesStream | domain/services/isolate.go:28-40 | However a stream is cut into writes, the buffer is its first max bytes and truncated iff it is longer |
| Capture.RunReturnsTheCapture | domain/services/isolate.go:152-163 | The output of a command is what its buffer holds in the end: all of what was printed up to 16 MiB, else the first 16 MiB |
| Capture.RetainedOutputIsThatOfTheStream | domain/services/executor.go:33-38 | The retained output is all that was printed up to 10000 bytes, else the first 10000 and a note, for any cut into writes |
| Metadata.ParseMetadata | domain/models/metadata.go:43-81 | The loop over lines computes the specified record or the first complaint |
| Metadata.FailsIffSomeNumberIsMalformed | domain/models/metadata.go:54-78 | A parse fails iff some line with a numeric key, not only the last, is malformed |
| Metadata.LastLinesCount | domain/models/metadata.go:45-80 | Each field of a successful parse is what the last line with its prefix says, trimmed, memory cut to int32, and empty or zero without such a line |
| Text.OnlySpaceIsTrimmed | domain/models/metadata.go:47 | Trimming drops white space characters from both ends, all of them and nothing else |
| Metadata.OnlyPerKeyOrderMatters | domain/models/metadata.go:45-79 | Lines without a key, and the relative order of lines with different keys, do not matter |
| Metadata.ReorderingDistinctKeys | domain/models/metadata.go:45-79 | Permuting lines of which no two share a key changes nothing |
| Metadata.ParseUndoesPrint | domain/models/metadata.go:43-81 | Parsing undoes printing for trimmed texts, int32 memory, and times that the float printer and parser agree on |
| Metadata.NanIsParsed | domain/models/metadata.go:62-68 | A report with a wall time of nan is parsed without an error, given that ParseFloat accepts nan |
| Json.QuoteIsLegal | cmd/worker/worker.go:50 | Every byte string is encoded as a legal string of section 7 of RFC 8259, of at most six bytes a byte |
| Json.FloatIsShort | domain/models/grade_result.go:11 | A float32 has a JSON form iff it is finite, and then one of at most 23 bytes |
| Decimals.FloatIsRead | domain/models/grade_result.go:11 | The JSON form of a finite float32 is read back as exactly its value |
| Decoding.RunIsRead | domain/models/run_result.go:5-13 | An encoded run result is read back with all its fields, strings up to bytes that are no characters, numbers exactly |
| Decoding.GradeIsRead | domain/models/grade_result.go:5-27 | A grade result is encoded iff all its times are finite, and read back with all its fields, groups and cases |
| Decoding.PublishedIsRead | cmd/worker/worker.go:49-78 | What is read from the published bytes is the whole grade if its text is at most 8 MiB, else all but inputs, outputs and messages if that is, else and where a case's time is not finite no groups |
| JsonStrings.RoundTripIff | cmd/master/master.go:219-220 | Decoding an encoded string gives it back iff it is valid UTF-8 |
| JsonStrings.QuoteDecodes | cmd/master/master.go:219-220 | Otherwise exactly the bytes that are not part of a character are replaced |
| Publish.StripNeverGrows | cmd/worker/worker.go:57-64 | Stripping never makes the text longer and keeps ids, scores, statuses, times, memories, counts and the verdict |
| Publish.VerdictIsAlwaysPublished | cmd/worker/worker.go:43-78 | At most 8 MiB, non-empty iff the average wall time is finite, and then status, averages and score can be read back from the bytes |
| Publish.GroupsArePublished | cmd/worker/worker.go:65-76 | The groups are kept whenever 136 bytes a case, 45 a group and six a byte of id fit, however long the outputs |
| Publish.BlankInPlace | cmd/worker/worker.go:58-63 | The inner loop blanks every case of one group in place |
| Publish.StripInPlace | cmd/worker/worker.go:57-64 | Both loops together strip all groups, also when groups share their cases |
| Publish.MarshalBoundedGradeResult | cmd/worker/worker.go:49-78 | Returns the bounded form of the original result, and leaves that result as it was or stripped |
| GradeReply.RepliesTellTheVerdict | cmd/worker/worker.go:460-530 | Every reply to a fetched grade task is within the broker's limit, as long as six times the length of its id is, and the last tells the verdict of sequential grading |
| GradeReply.OneTimeSpoilsTheGrade | cmd/worker/worker.go:75-77 | The published grade is empty iff its average has no JSON form, for which one case with a time that is no number is enough |
| GradeReply.GradeRequestsAreTold | cmd/worker/worker.go:474-523 | A request without an executor is told GRADER_ERROR, all others RUNNING and then a grade or GRADER_ERROR |
| GradeReply.PublishedGradesAreTold | cmd/worker/worker.go:511-538 | The published status is RUN_PASSED iff all cases pass and else RUN_FAILED, the score the int32 sum over groups without a failing case, the average wall time the exact mean, rounded |
| GradeReply.PublishedVerdictIsScheduleIndependent | cmd/worker/worker.go:510-530 | Whatever the interleaving, the published verdict is that of sequential grading, within 8 MiB |
| GradeReply.HandleGrade | cmd/worker/worker.go:466-535 | Publishes exactly the specified replies, in order, and keeps the grade pool |
| Replies.RepliesShape | cmd/worker/worker.go:322-400 | A decoded request is announced at most once and then answered once under its own id, the answer missing exactly when the wall time is not finite |
| Replies.RepliesFit | cmd/worker/worker.go:384-391 | No reply is over 16 MiB, whatever the program printed |
| Replies.AnswerIsTheResult | cmd/worker/worker.go:373-394 | The answer is the run's own result iff that is within the broker's limit, else GRADER_ERROR |
| Replies.RunIsAnswered | cmd/worker/worker.go:341-398 | A run that ends is announced and then answered with its status, all that it printed, its time and memory, unless that is over 16 MiB as JSON, which is told instead, or its time has no JSON form |
| Replies.OthersAreAnswered | cmd/worker/worker.go:322-371 | An unknown runner is told GRADER_ERROR at once, a run that is an error RUNNING and then GRADER_ERROR |
| Replies.AnswerableIff | cmd/worker/worker.go:293-400 | A request is answered iff it is decoded and its run, if it ends, ends with a finite wall time |
| Replies.ReceivedIsRead | cmd/master/master.go:219-220 | What the model's master receives is what is read from the bytes that the worker sends |
| Replies.ReadBack | cmd/master/master.go:220-222 | A string field is read as it was sent iff it is valid UTF-8, and otherwise with the bytes that are no characters replaced |
| Replies.NanIsNotAnswered | cmd/worker/worker.go:375-400 | A run reported with a wall time of nan is announced and then answered with an empty body |
| Replies.HandleRun | cmd/worker/worker.go:288-404 | Publishes exactly the specified replies, in order, fails iff the body cannot be decoded, blocks iff it needs a box of an empty pool, and keeps the run pool |
| Master.ForwardReplies | cmd/master/master.go:216-236 | The consumer's loop forwards decoded replies in order up to and including the first terminal one, stops at one it cannot decode, and says which, or waits for ever |
| Master.Run | cmd/master/master.go:146-246 | With the worker's handler in between, the stream gets QUEUED, at most one RUNNING, at most one terminal status, the last iff the request is answerable, and then all replies as decoded |
| Master.LastOutput | cmd/master/master.go:318-343 | The consumer's loop returns the decoded output of the terminal reply, if there is one |
| Master.CollectOne | cmd/master/master.go:278-345 | One goroutine's response has the id, order and input of its case and the output read from its own execution's answer, and is missing iff that is not answerable |
| Master.CollectResults | cmd/master/master.go:272-351 | One case after the other, each gets such a response, and the call fails iff some case is not answerable |
| Master.GenerateTestCases | cmd/master/master.go:248-360 | The returned list has such a response for each case, each in a place of its own, ordered by Order when all pairwise differences fit in int32 |
| ProtocolProofs.EveryStreamIsWellFormed | cmd/master/master.go:200-240 | In every reachable state every Run stream is QUEUED, at most one RUNNING, at most one terminal status, in that order under one id |
| ProtocolProofs.EveryMessageFits | cmd/worker/worker.go:384-391 | No message a worker publishes in any interleaving is over 16 MiB |
| ProtocolProofs.GenerateIsBounded | cmd/master/master.go:275-276 | Of each GenerateTestCases call, at most ten executions are under way |
| ProtocolProofs.StreamShape | cmd/master/master.go:216-236 | What a call has received so far determines a stream of the promised shape |
| ProtocolProofs.NextKeepsInv | cmd/master/master.go:200-240 | Every step keeps that a request is in one place, that replies are a prefix of the handler's, and that streams show what was received |
| ProtocolAnswers.RunsEnd | cmd/worker/worker.go:288-404 | No run of the protocol has more steps than the work it starts with |
| ProtocolAnswers.RunCallsAreAnswered | cmd/master/master.go:200-240 | Where a run has ended, a Run call has its terminal status iff its request was decoded and its wall time is finite, and its stream is QUEUED and all replies as the master decodes them |
| ProtocolAnswers.RunCallsAreTold | cmd/master/master.go:207-235 | The client of a run that ends with a finite time sees QUEUED, RUNNING and then the run's status, all that it printed with invalid bytes replaced, its time and memory; or a note that the result is too large |
| ProtocolAnswers.OtherCallsAreTold | cmd/master/master.go:207-235 | The client of an unknown runner sees QUEUED and GRADER_ERROR, that of a run that is an error RUNNING in between |
| ProtocolAnswers.RunOutputIsOwnIff | cmd/master/master.go:216-238 | The client gets all that the program printed, with the run's status, iff that is valid UTF-8 and the result at most 16 MiB as JSON |
| ProtocolAnswers.GenerateCallIsAnswered | cmd/master/master.go:322-346 | Where a run has ended, every case of a GenerateTestCases call is done, or broken exactly when it has no JSON form |
| Generate.GenerateFailsIff | cmd/master/master.go:347-351 | The call fails iff some case's wall time is not finite |
| Generate.EveryCaseIsReturned | cmd/master/master.go:272-351 | Otherwise each case has one entry of its own, with the case's id, order, input and the output read from its own execution's answer, for any completion order and any competing calls |
| Generate.OutputsAreTold | cmd/master/master.go:318-340 | That output is what the run printed with invalid bytes replaced, a note if the result is over 16 MiB, nothing if the run is an error |
| Generate.OutputIsOwnIff | cmd/master/master.go:318-340 | For a result within 16 MiB the output is what the run printed iff that is valid UTF-8 |
| Generate.GenerateTestCases | cmd/master/master.go:272-359 | The returned list has one response a case, each in a place of its own with the case's id, order, input and own output, ordered when all pairwise differences fit in int32 |
| GenerateOrders.AlwaysOrderedIff | cmd/master/master.go:272-359 | A call of at most ten cases is ordered in every run of the system iff all pairwise differences fit in int32 |
| GenerateOrders.TwoFirst | cmd/master/master.go:318-343 | Any two of at most ten cases are, in some run, the first two to be collected, in either order |
| Sorting.SortedIsOrdered | cmd/master/master.go:353-355 | Sorting gives a permutation, of any length, that is ordered when all differences fit |
| Sorting.OrderedForEveryArrivalIff | cmd/master/master.go:353-355 | A list sorted by insertion comes out ordered for every order of completion iff all differences fit |
| Sorting.TwoResponses | cmd/master/master.go:353-355 | Two responses come out ordered iff the second less the first fits in int32 |
| Sorting.LuckyArrival | cmd/master/master.go:353-355 | Three orders that the comparator puts in a circle come back ordered if they arrive so |
| Sorting.InsertionSortInPlace | cmd/master/master.go:353-355 | The sort of short lists, in place, is the specified one |
| Setup.StepKeepsGoroutine | internal/setup/setup.go:138-213 | Each step of a set-up goroutine keeps what its directory must hold at that point |
| Setup.ConfigDir.WriteFiles | internal/setup/setup.go:185-195 | The loop writes every file with its placeholders filled in, and the flag tells whether the run file is among them |
| Setup.ConfigDir.SetupCompare | internal/setup/setup.go:138-213 | Alone, a compare completes with its run file and run script, or leaves no trace |
| SetupRuns.StepKeepsInv | internal/setup/setup.go:133-214 | Every step of every interleaving keeps every goroutine's directory invariant and a box for each that has not started |
| SetupRuns.NoDeadlock | internal/setup/setup.go:136-146 | A goroutine that has not ended can always go on |
| SetupRuns.StepUsesRest | internal/setup/setup.go:138-213 | Every step of every interleaving uses up work |
| SetupIndex.WriteToComparesJson | internal/setup/setup.go:218-233 | The loop lists, in input order, the configured compares that have a directory |
| SetupIndex.ListedIsTold | internal/setup/setup.go:218-233 | The entries are those of the compares with a run name, files and a directory, in input order, each with its id, run name and directory path |
| SetupIndex.ListIsExactIff | internal/setup/setup.go:19-30 | After every interleaving the list is exactly the completed compares iff no removal failed unnoticed |
| SetupExact.AlwaysExactIff | internal/setup/setup.go:167-202 | The list is exact in every run iff no configured compare has a build script and each has its run file among its files |
| SetupExact.SomeRunLeavesBehind | internal/setup/setup.go:173-200 | In some run every configured compare that does not meet this leaves its directory behind |
| SetupIndex.CompletesIff | internal/setup/setup.go:184-202 | Without a build script, a compare completes iff it is configured and one of its files is the run file |
| SetupIndex.CompletedIsInstalled | internal/setup/setup.go:165-212 | A completed compare's directory has its run file and its filled-in run script, and besides only, without a build script, the compare's files, filled in too |
| SetupIndex.ListedComparesWork | domain/services/executor.go:487-514 | For a listed compare the script that runs ends in the configured one with its placeholder filled in, exports the path that was filled in, where there is a file, and the paths of the two data files, which are all else in the box |
| SetupIndex.RunScriptHasNoPlaceholder | internal/setup/setup.go:272-276 | An id and run name without '$' leave no placeholder in the run script |
| Replace.OnlyOccurrencesChange | internal/setup/setup.go:278-280 | Content and result are the same pieces, in order, around the key and around the value |
| Replace.PiecesHoldNoKey | internal/setup/setup.go:278-280 | No piece that is kept still holds the key |
| Replace.ReplaceEnvFillsIn | internal/setup/setup.go:278-280 | Exactly the occurrences of $RUN_NAME change, each into the value |
| Replace.NoPlaceholderIsLeftIff | internal/setup/setup.go:278-280 | For a path starting with '/', no content keeps or gains a placeholder iff the path holds none and does not end in a part of one |
| Replace.NoDollarIsEnough | internal/setup/setup.go:148-165 | In particular for a path without '$' |

## Left out

- RabbitMQ, gRPC, OpenTelemetry, logging, environment loading, reconnect loops and signals: queues are taken to be FIFO
  and to deliver each message once, a handler to finish before `Consume` returns, and `exit` to stop consumption.
- Redelivery after a crash, and publishes that fail, which the code only logs.
- The isolate binary, the submitted programs and the compare programs: uninterpreted functions of `Env`. They are
  deterministic, so two executions of one submission on equal boxes are equal.
- genproto/, protobuf conversions, the status switches, look-ups by id, `ExecutorHolder`, `WithSafeLimits` and
  `getLimitArgs`: they would add only easy members.
- The `runner_test` and `compare_test` handlers; the first publishes an error status and then continues.
- Grade requests whose task is not found, which get no reply: `GradeReply` starts where the task is fetched.
- Reloading the configuration while jobs run, which removes the tree, and the second `IsolateService` of
  `setupCompares`, whose ids also start at 0: exclusive use of boxes is stated per service.
- `setupRunners`, which writes another directory, and errors of `os.Stat` in `writeToComparesJson`.
- Ids and file names are single path elements, so that a directory is a map from names to contents; `path.Join` then
  only joins with '/'.
- A bound on each case's message: it holds the untruncated output of a failed run, so only the published size is bounded.
- Nil limits, which the worker never passes, and cancellation of the worker's own context at shut-down.
- JSON that encoding/json does not write, such as white space between tokens, in `JsonValues`.
- Master.CollectResults: runs one case after the other; `Protocol` and `GenerateOrders` have the interleavings.
- The algorithm of `slices.SortFunc` beyond twelve elements: `Sorting.Promise` is what it promises there.
- EngineTheorems.GradeIsScheduleIndependent: sums of wall times are not rounded there, so the rounding of float32 sums, which depends on the order of completion, and an overflow by rounding are not modelled.
- EngineFanOut.GlobalBoundIff: for jobs of more than four groups only the sufficient half is proved, in EngineFanOut.GlobalBound, because whether four given groups can be alive at once depends there on how the others end.
- GenerateOrders.AlwaysOrderedIff: covers calls of up to ten cases, which all run at once; for longer ones Generate.GenerateTestCases has the sufficient half and Sorting.OrderedForEveryArrivalIff the orders of completion.
- EngineTheorems.CanGoOnWithoutExit: says nothing about jobs whose grading is an error, because a later Init under the cancelled context then ends the process.
- GradeReply.PublishedVerdictIsScheduleIndependent: the groups travel with the verdict but only up to the order of completion, so the lemma compares verdicts and not whole texts.
- Isolate.IsolateService.NewRunInstance: requires a free id; its callers return `Blocked` where the source waits for one.
- Executor.TestCaseRunner.Grade: runs goroutines one after the other; the interleavings are the subject of `Engine`.
