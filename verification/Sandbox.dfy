/** A sandbox box on disk, and the outside world that acts on it: isolate, the programs it runs, the file system. */
module Sandbox {
  import opened Models
  import opened Metadata
  import opened Capture

  datatype Entry = Data(content: string) | Unreadable

  /** The files under a box directory, and the metadata file beside it. */
  datatype Box = Box(files: map<string, Entry>, meta: Option<string>)

  /** What `isolate --init` leaves, whatever was there before. */
  const FRESH := Box(map[], None)

  /** Succeeded, ended with a non-zero exit status, or failed in a way that is not an exec.ExitError. */
  datatype Exit = Succeeded | ExitStatus(code: int) | OtherError

  /** One isolate invocation: how it ended, everything the program wrote to stdout, and the box afterwards. */
  datatype Execution = Execution(exit: Exit, stdout: string, box: Box) {
    function Output(): string { Kept(stdout) }
  }

  datatype ReadResult = Content(text: string) | NotExist | ReadError

  /** What a user program is run with. */
  datatype Program = Program(files: seq<File>, runner: LocalRunner, input: string, limits: Limit)

  /** The uninterpreted, deterministic outside world. No function of it sees the box id. */
  datatype Env = Env(
    canWrite: (Box, File) -> bool,
    compile: (Box, string) -> Execution,
    run: (Box, Program) -> Execution,
    compare: (Box, string) -> Execution,
    readConfig: string -> ReadResult,
    parseFloat: FloatParser,
    quote: string -> string)

  function Write(box: Box, f: File): Box {
    box.(files := box.files[f.name := Data(f.content)])
  }

  /** CreateFile for each file in turn; None at the first that fails. */
  function WriteAll(env: Env, box: Box, files: seq<File>): Option<Box>
    decreases |files|
  {
    if files == [] then Some(box)
    else if env.canWrite(box, files[0]) then WriteAll(env, Write(box, files[0]), files[1..])
    else None
  }

  /** IsolateInstance.GetMetadata. */
  function GetMetadata(env: Env, box: Box): Option<Metadata> {
    match box.meta
    case None => None
    case Some(text) =>
      match Parse(env.parseFloat, text)
      case Ok(m) => Some(m)
      case Err(_) => None
  }

  /** IsolateInstance.GetCompareResult: no file means no complaint; None is a read error. */
  function GetCompareResult(box: Box): Option<string> {
    if "compare_result.txt" !in box.files then Some("")
    else match box.files["compare_result.txt"]
         case Data(text) => Some(text)
         case Unreadable => None
  }
}
