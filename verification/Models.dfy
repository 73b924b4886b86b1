/** The values that domain/models and domain/constants/execution define. */
module Models {
  import opened GoInt

  datatype Option<+T> = None | Some(value: T)

  datatype Status =
    | COMPILE_FAILED | RUN_PASSED | RUN_FAILED | TIME_LIMIT_EXCEEDED | MEMORY_LIMIT_EXCEEDED
    | RUNTIME_ERROR | SIGNAL_ERROR | GRADER_ERROR | FILE_NOT_FOUND | QUEUED | RUNNING

  datatype File = File(name: string, content: string)

  datatype Limit = Limit(cpuTime: real, cpuExtraTime: real, wallTime: real, memory: int32,
                         stack: int32, maxOpenFiles: int32, maxFileSize: real, networkAllow: bool)

  datatype TestCase = TestCase(id: string, input: string, output: string)

  datatype TestCaseGroup = TestCaseGroup(id: string, testCases: seq<TestCase>, score: int32)

  datatype LocalRunner = LocalRunner(path: string, needCompile: bool)

  datatype LocalCompare = LocalCompare(id: string, runName: string, path: string)

  datatype CompareConfig = CompareConfig(id: string, files: seq<File>, buildScript: string,
                                         runScript: string, runName: string)

  // W is the type of wall times and A that of their average.

  datatype TestCaseResult<W> = TestCaseResult(id: string, status: Status, input: string, output: string,
                                              message: string, wallTime: W, memory: int32)

  /** An empty `results` stands for Go's nil slice: Result only ever appends to a nil one. */
  datatype TestCaseGroupResult<W> = TestCaseGroupResult(id: string, score: int32, results: seq<TestCaseResult<W>>)

  /** `groups` is None for a nil slice. */
  datatype GradeResult<W, A> = GradeResult(status: Status, groups: Option<seq<TestCaseGroupResult<W>>>,
                                           avgWallTime: A, avgMemory: int32, score: int32)

  datatype RunResult<W> = RunResult(id: string, status: Status, output: string, wallTime: W, memory: int32,
                                    exitCode: int, compareResult: string)
}
