/**
 * What a run, a playground run and a compare come to, told from their inputs, the outside world and what isolate
 * reports, without the functions of GradeSpec that compute it.
 */
module Outcomes {
  import opened Floats
  import opened GoInt
  import opened Models
  import opened Metadata
  import opened Capture
  import opened Sandbox
  import opened Sequences
  import opened Text
  import opened BoxWork
  import opened GradeSpec

  // ---- files --------------------------------------------------------------------------------------

  /** An empty box into which these files have been written, in this order. */
  function BoxWith(files: seq<File>): (box: Box)
    ensures box.meta == None
  {
    if files == [] then Box(map[], None)
    else
      var n := |files| - 1;
      Box(BoxWith(files[..n]).files[files[n].name := Data(files[n].content)], None)
  }

  /** None of these writes fails. */
  predicate Writable(env: Env, files: seq<File>) {
    forall n :: 0 <= n < |files| ==> env.canWrite(BoxWith(files[..n]), files[n])
  }

  lemma {:induction false} BoxWithHoldsExactly(files: seq<File>)
    ensures HoldsExactly(BoxWith(files), files)
  {
    hide HoldsExactly;
    if files == [] {
      FreshHoldsNothing();
    } else {
      var n := |files| - 1;
      BoxWithHoldsExactly(files[..n]);
      WriteHoldsExactly(BoxWith(files[..n]), files[..n], files[n]);
      assert files == files[..n] + [files[n]];
    }
  }

  lemma BoxWithOneMore(files: seq<File>, n: nat)
    requires n < |files|
    ensures BoxWith(files[..n + 1]) == Write(BoxWith(files[..n]), files[n])
  {
    var more := files[..n + 1];
    assert more[..n] == files[..n] && more[n] == files[n];
  }

  lemma WritablePrefix(env: Env, files: seq<File>, n: nat)
    requires n <= |files| && Writable(env, files)
    ensures Writable(env, files[..n])
  {
    hide BoxWith;
    forall k | 0 <= k < n ensures env.canWrite(BoxWith(files[..n][..k]), files[..n][k]) {
      assert files[..n][..k] == files[..k];
    }
  }

  lemma WritableOneMore(env: Env, files: seq<File>, n: nat)
    requires n < |files| && Writable(env, files[..n])
    ensures Writable(env, files[..n + 1]) <==> env.canWrite(BoxWith(files[..n]), files[n])
  {
    hide BoxWith;
    var more := files[..n + 1];
    assert more[..n] == files[..n] && more[n] == files[n];
    forall k | 0 <= k < n ensures env.canWrite(BoxWith(more[..k]), more[k]) {
      assert more[..k] == files[..n][..k] && more[k] == files[..n][k];
    }
  }

  lemma {:induction false} WritesSoFar(env: Env, files: seq<File>, n: nat)
    requires n <= |files| && Writable(env, files[..n])
    ensures WriteAll(env, BoxWith(files[..n]), files[n..]) ==
            if Writable(env, files) then Some(BoxWith(files)) else None
    decreases |files| - n
  {
    hide Writable, BoxWith;
    if n == |files| {
      assert files[..n] == files;
    } else {
      assert files[n..][1..] == files[n + 1..];
      WritableOneMore(env, files, n);
      BoxWithOneMore(files, n);
      if Writable(env, files) { WritablePrefix(env, files, n + 1); }
      if env.canWrite(BoxWith(files[..n]), files[n]) {
        WritesSoFar(env, files, n + 1);
      }
    }
  }

  /** Writing into a fresh box succeeds if and only if no single write fails, and then leaves just these files. */
  lemma WriteAllIff(env: Env, files: seq<File>)
    ensures WriteAll(env, FRESH, files) == if Writable(env, files) then Some(BoxWith(files)) else None
    ensures HoldsExactly(BoxWith(files), files)
  {
    hide HoldsExactly;
    assert files[..0] == [] && files[0..] == files;
    WritesSoFar(env, files, 0);
    BoxWithHoldsExactly(files);
  }

  // ---- running ------------------------------------------------------------------------------------

  /** The compiler fails, having printed this. */
  ghost predicate CompileFails(env: Env, p: Program, printed: string) {
    && Writable(env, p.files) && p.runner.needCompile
    && var c := env.compile(BoxWith(p.files), p.runner.path);
       !c.exit.Succeeded? && printed == c.stdout
  }

  /** The program gets to run, in the box that its files and the compiler have made, and ends like this. */
  ghost predicate Executes(env: Env, p: Program, e: Execution) {
    && Writable(env, p.files)
    && if !p.runner.needCompile then e == env.run(BoxWith(p.files), p)
       else
         var c := env.compile(BoxWith(p.files), p.runner.path);
         c.exit.Succeeded? && e == env.run(c.box, p)
  }

  /** It succeeds, and isolate leaves this report. */
  ghost predicate Reports(env: Env, e: Execution, m: Metadata) {
    e.exit.Succeeded? && e.box.meta.Some? && Parse(env.parseFloat, e.box.meta.value) == Ok(m)
  }

  /** isolate's codes, and that a memory limit that is exceeded goes before them. */
  predicate StatusTold(m: Metadata, limits: Limit, status: Status) {
    if m.failedStatus == "" then status == RUN_PASSED
    else if limits.memory != 0 && m.memory > limits.memory then status == MEMORY_LIMIT_EXCEEDED
    else
      && (m.failedStatus == "TO" ==> status == TIME_LIMIT_EXCEEDED)
      && (m.failedStatus == "RE" ==> status == RUNTIME_ERROR)
      && (m.failedStatus == "SG" ==> status == SIGNAL_ERROR)
      && (m.failedStatus == "XX" ==> status == GRADER_ERROR)
      && (m.failedStatus !in {"TO", "RE", "SG", "XX"} ==> status == RUN_PASSED)
  }

  predicate NamesNoFailure(m: Metadata, limits: Limit) {
    || m.failedStatus == ""
    || (m.failedStatus !in {"TO", "RE", "SG", "XX"} && !(limits.memory != 0 && m.memory > limits.memory))
  }

  /** What a graded run comes to, in each of the ways it can go. */
  lemma RunsAreTold(env: Env, p: Program)
    ensures var o := RunTestCase(env, p);
            && (!Writable(env, p.files) ==>
                  o == Ran("create file error", RunMeta(GRADER_ERROR, Number(false, "", 0), 0)))
            && (forall printed :: CompileFails(env, p, printed) ==>
                  && o.Ran? && Captures(o.output, printed)
                  && o.meta == RunMeta(COMPILE_FAILED, Number(false, "", 0), 0))
            && (forall e :: Executes(env, p, e) && !e.exit.Succeeded? ==>
                  && o.Ran? && Captures(o.output, e.stdout)
                  && o.meta == RunMeta(GRADER_ERROR, Number(false, "", 0), 0))
            && (forall e, m :: Executes(env, p, e) && Reports(env, e, m) ==>
                  && o.Ran? && Captures(o.output, e.stdout)
                  && o.meta.wallTime == m.wallTime && o.meta.memory == m.memory
                  && StatusTold(m, p.limits, o.meta.status))
            && (forall e :: Executes(env, p, e) && e.exit.Succeeded? && !(exists m :: Reports(env, e, m)) ==>
                  o == Error)
  {
    hide Writable, BoxWith, Parse, WriteAll;
    WriteAllIff(env, p.files);
    hide HoldsExactly;
    forall e | Executes(env, p, e) && e.exit.Succeeded? && GetMetadata(env, e.box).Some?
      ensures Reports(env, e, GetMetadata(env, e.box).value) {}
  }

  /** There are no other ways. */
  lemma RunGoesSomehow(env: Env, p: Program)
    ensures || !Writable(env, p.files)
            || (exists printed :: CompileFails(env, p, printed))
            || (exists e :: Executes(env, p, e))
  {
    hide Writable, BoxWith;
    if Writable(env, p.files) {
      var c := env.compile(BoxWith(p.files), p.runner.path);
      if !p.runner.needCompile {
        assert Executes(env, p, env.run(BoxWith(p.files), p));
      } else if c.exit.Succeeded? {
        assert Executes(env, p, env.run(c.box, p));
      } else {
        assert CompileFails(env, p, c.stdout);
      }
    }
  }

  /**
   * A run is classified RUN_PASSED, with this output, if and only if its files were written, it was compiled if need
   * be, the program succeeded, having printed that, and isolate's report either has no status or has one that is not
   * among its codes and comes without a memory limit being exceeded.
   */
  lemma RunPassesIff(env: Env, p: Program, output: string)
    ensures var o := RunTestCase(env, p);
            (o.Ran? && o.meta.status == RUN_PASSED && o.output == output) <==>
            exists e, m :: Executes(env, p, e) && Reports(env, e, m) && NamesNoFailure(m, p.limits)
                           && Captures(output, e.stdout)
  {
    var o := RunTestCase(env, p);
    RunsAreTold(env, p);
    RunGoesSomehow(env, p);
    hide Writable, RunTestCase, Executes, Reports, Captures;
    if e, m :| Executes(env, p, e) && Reports(env, e, m) && NamesNoFailure(m, p.limits) && Captures(output, e.stdout) {
      OneCapture(output, o.output, e.stdout);
    }
  }

  lemma OneCapture(a: string, b: string, printed: string)
    requires Captures(a, printed) && Captures(b, printed)
    ensures a == b
  {
    assert a == printed[..|a|] == b;
  }

  // ---- the playground -----------------------------------------------------------------------------

  /** A playground run ends with this status, having printed this. */
  ghost predicate RunEnds(env: Env, p: Program, status: Status, printed: string, wallTime: Float32, memory: int32) {
    || (CompileFails(env, p, printed) && status == COMPILE_FAILED && wallTime == Number(false, "", 0) && memory == 0)
    || (exists e :: Executes(env, p, e) && printed == e.stdout
                    && e.exit.ExitStatus? && e.exit.code != 127
                    && status == RUN_FAILED && wallTime == Number(false, "", 0) && memory == 0)
    || (exists e, m :: Executes(env, p, e) && printed == e.stdout && Reports(env, e, m)
                       && status == RUN_PASSED && wallTime == m.wallTime && memory == m.memory)
  }

  /** What it comes to: the status, and all that was printed as far as it was captured. */
  lemma RunRequestsAreTold(env: Env, p: Program, status: Status, printed: string, wallTime: Float32, memory: int32)
    requires RunEnds(env, p, status, printed, wallTime, memory)
    ensures var o := RunRequest(env, p);
            && o.Answered? && Captures(o.result_.output, printed)
            && o.result_ == RunResult("", status, o.result_.output, wallTime, memory, 0, "")
  {
    hide Writable, BoxWith, Parse, WriteAll, HoldsExactly;
    WriteAllIff(env, p.files);
  }

  /** And an error in all other cases: a write that fails, a command that is not there, or no well-formed report. */
  lemma RunRequestErrsIff(env: Env, p: Program)
    ensures RunRequest(env, p).Answered? || RunRequest(env, p) == Error
    ensures RunRequest(env, p).Answered? <==>
            exists status, printed, wallTime, memory :: RunEnds(env, p, status, printed, wallTime, memory)
  {
    hide Writable, BoxWith, Parse, WriteAll, HoldsExactly;
    WriteAllIff(env, p.files);
    if RunRequest(env, p).Answered? {
      RunRequestEnds(env, p);
    } else if status, printed, wallTime, memory :| RunEnds(env, p, status, printed, wallTime, memory) {
      RunRequestsAreTold(env, p, status, printed, wallTime, memory);
    }
  }

  lemma RunRequestEnds(env: Env, p: Program)
    requires RunRequest(env, p).Answered?
    ensures exists printed ::
              var r := RunRequest(env, p).result_; RunEnds(env, p, r.status, printed, r.wallTime, r.memory)
  {
    hide Writable, BoxWith, Parse, WriteAll, HoldsExactly;
    WriteAllIff(env, p.files);
    var r := RunRequest(env, p).result_;
    var c := env.compile(BoxWith(p.files), p.runner.path);
    if p.runner.needCompile && !c.exit.Succeeded? {
      assert CompileFails(env, p, c.stdout);
      assert RunEnds(env, p, r.status, c.stdout, r.wallTime, r.memory);
    } else {
      var e := env.run(if p.runner.needCompile then c.box else BoxWith(p.files), p);
      assert Executes(env, p, e);
      if e.exit.Succeeded? { assert Reports(env, e, GetMetadata(env, e.box).value); }
      assert RunEnds(env, p, r.status, e.stdout, r.wallTime, r.memory);
    }
  }

  // ---- what the compare script is told ------------------------------------------------------------

  /** The value that a shell script's first `export NAME=` line gives to a name. */
  function Exported(script: string, name: string): Option<string> {
    var start := "export " + name + "=";
    match FirstThat((line: string) => start <= line, Lines(script))
    case Absent => None
    case At(_, line) => Some(line[|start|..])
  }

  /** The file that a path names inside the sandbox, where the box is /box. */
  function FileAt(box: Box, path: string): Option<Entry> {
    if "/box/" <= path && path[5..] in box.files then Some(box.files[path[5..]]) else None
  }

  lemma {:induction false} LinesHaveNoNewline(s: string)
    ensures forall line :: line in Lines(s) ==> '\n' !in line
  {
    if s != "" { LinesHaveNoNewline(s[1..]); }
  }

  lemma ExportedHasNoNewline(script: string, name: string)
    ensures Exported(script, name).Some? ==> '\n' !in Exported(script, name).value
  {
    LinesHaveNoNewline(script);
    var start := "export " + name + "=";
    var found := FirstThat((line: string) => start <= line, Lines(script));
    if found.At? {
      assert found.item in Lines(script);
      assert forall c :: c in found.item[|start|..] ==> c in found.item;
    }
  }

  lemma NotStart(name: string, line: string)
    requires name != "" && |line| > 7 && line[7] != name[0]
    ensures !("export " + name + "=" <= line)
  {
    assert ("export " + name + "=")[7] == name[0];
  }

  /** Lines that do not start like it are passed over. */
  lemma FirstExport(lines: seq<string>, rest: seq<string>, script: string, name: string, n: nat, value: string)
    requires Lines(script) == lines + rest && n < |lines| && lines[n] == "export " + name + "=" + value
    requires name != "" && forall i :: 0 <= i < n ==> |lines[i]| > 7 && lines[i][7] != name[0]
    ensures Exported(script, name) == Some(value)
  {
    hide Lines;
    var start := "export " + name + "=";
    var p := (line: string) => start <= line;
    assert lines[n][|start|..] == value && lines[n][..|start|] == start;
    var all := lines + rest;
    assert p(all[n]);
    forall i | 0 <= i < n ensures !p(all[i]) { NotStart(name, lines[i]); }
    var found := FirstThat(p, all);
    assert found.At? && found.index == n;
  }

  /** Five lines and a rest. */
  lemma FiveLines(a: string, b: string, c: string, d: string, e: string, rest: string)
    requires '\n' !in a && '\n' !in b && '\n' !in c && '\n' !in d && '\n' !in e
    ensures Lines(a + "\n" + (b + "\n" + (c + "\n" + (d + "\n" + (e + "\n" + rest))))) ==
            [a, b, c, d, e] + Lines(rest)
  {
    hide Lines;
    var r1 := e + "\n" + rest;
    var r2 := d + "\n" + r1;
    var r3 := c + "\n" + r2;
    var r4 := b + "\n" + r3;
    LinesOfJoin(e, rest);
    LinesOfJoin(d, r1);
    LinesOfJoin(c, r2);
    LinesOfJoin(b, r3);
    LinesOfJoin(a, r4);
  }

  lemma Regroup(a: string, b: string, s: string, x: string, y: string, z: string, w: string, d: string, e: string,
                n: string, rest: string)
    ensures a + n + b + s + n + x + y + z + w + n + d + n + e + n + rest ==
            a + n + (b + s + n + (x + y + z + w + n + (d + n + (e + n + rest))))
  {
    var f, g := b + s, x + y + z + w;
    assert a + n + b + s + n + x + y + z + w == a + n + f + n + g;
    assert a + n + f + n + g + n + d + n + e + n + rest == a + n + (f + n + (g + n + (d + n + (e + n + rest))));
  }

  /** The five lines. */
  function PreambleLines(cmp: LocalCompare): seq<string> {
    ["#!/bin/bash", "export PATH=" + SearchPath(), "export RUN_NAME=" + cmp.path + "/" + cmp.runName,
     "export OUTPUT=/box/output", "export SOL_OUTPUT=/box/sol_output"]
  }

  lemma PreambleIsLines(cmp: LocalCompare, script: string)
    requires '\n' !in cmp.path && '\n' !in cmp.runName
    ensures Lines(Preamble(cmp) + script) == PreambleLines(cmp) + Lines(script)
  {
    hide Lines, SearchPath;
    var (a, b, c, d, e) := ("#!/bin/bash", "export PATH=", "export RUN_NAME=",
      "export OUTPUT=/box/output", "export SOL_OUTPUT=/box/sol_output");
    Regroup(a, b, SearchPath(), c, cmp.path, "/", cmp.runName, d, e, "\n", script);
    NoNewlines(a, b, c, d, e);
    FiveLines(a, b + SearchPath(), c + cmp.path + "/" + cmp.runName, d, e, script);
  }

  lemma NoNewlines(a: string, b: string, c: string, d: string, e: string)
    requires a == "#!/bin/bash" && b == "export PATH=" && c == "export RUN_NAME="
    requires d == "export OUTPUT=/box/output" && e == "export SOL_OUTPUT=/box/sol_output"
    ensures '\n' !in a && '\n' !in b && '\n' !in SearchPath() && '\n' !in c && '\n' !in d && '\n' !in e
  {
    SearchPathText();
    hide SearchPath;
  }

  lemma SearchPathText()
    ensures SearchPath() == "/usr/local/sbin:/usr/local/bin:" + "/usr/sbin:/usr/bin:/sbin:/bin"
    ensures '\n' !in SearchPath()
  {
    var (a, b) := ("/usr/local/sbin:/usr/local/bin:", "/usr/sbin:/usr/bin:/sbin:/bin");
    assert forall i :: 0 <= i < |a| ==> a[i] != '\n';
    assert forall i :: 0 <= i < |b| ==> b[i] != '\n';
  }

  /** Where a line of the five gives a value to a name, and no line before it to one with the same first letter. */
  ghost predicate Exports(cmp: LocalCompare, n: nat, name: string, value: string) {
    && n < 5 && name != "" && PreambleLines(cmp)[n] == "export " + name + "=" + value
    && forall i :: 0 <= i < n ==> |PreambleLines(cmp)[i]| > 7 && PreambleLines(cmp)[i][7] != name[0]
  }

  lemma ExportsDiffer(cmp: LocalCompare)
    ensures var lines := PreambleLines(cmp);
            lines[0][7] == 'b' && lines[1][7] == 'P' && lines[2][7] == 'R' && lines[3][7] == 'O' && lines[4][7] == 'S'
    ensures forall i :: 0 <= i < 5 ==> |PreambleLines(cmp)[i]| > 7
  {
    hide SearchPath;
  }

  lemma ExportNames()
    ensures "export " + "PATH" + "=" == "export PATH=" && "export " + "RUN_NAME" + "=" == "export RUN_NAME="
    ensures "export OUTPUT=/box/output" == "export " + "OUTPUT" + "=" + "/box/output"
    ensures "export SOL_OUTPUT=/box/sol_output" == "export " + "SOL_OUTPUT" + "=" + "/box/sol_output"
  {
  }

  lemma PreambleExports(cmp: LocalCompare)
    ensures Exports(cmp, 1, "PATH", SearchPath()) && Exports(cmp, 2, "RUN_NAME", cmp.path + "/" + cmp.runName)
    ensures Exports(cmp, 3, "OUTPUT", "/box/output") && Exports(cmp, 4, "SOL_OUTPUT", "/box/sol_output")
  {
    ExportsDiffer(cmp);
    ExportNames();
    hide SearchPath;
    assert PreambleLines(cmp)[2] == "export RUN_NAME=" + (cmp.path + "/" + cmp.runName);
  }

  lemma ExportedLine(cmp: LocalCompare, script: string, n: nat, name: string, value: string)
    requires '\n' !in cmp.path && '\n' !in cmp.runName && Exports(cmp, n, name, value)
    ensures Exported(Preamble(cmp) + script, name) == Some(value)
  {
    assert |PreambleLines(cmp)| == 5;
    hide Preamble, PreambleLines, Exported, Lines, SearchPath;
    PreambleIsLines(cmp, script);
    FirstExport(PreambleLines(cmp), Lines(script), Preamble(cmp) + script, name, n, value);
  }

  lemma ExportedLines(cmp: LocalCompare, script: string)
    requires '\n' !in cmp.path && '\n' !in cmp.runName
    ensures var text := Preamble(cmp) + script;
            && Exported(text, "PATH") == Some(SearchPath())
            && Exported(text, "RUN_NAME") == Some(cmp.path + "/" + cmp.runName)
            && Exported(text, "OUTPUT") == Some("/box/output")
            && Exported(text, "SOL_OUTPUT") == Some("/box/sol_output")
  {
    hide Preamble, PreambleLines, Exported, SearchPath, Exports;
    PreambleExports(cmp);
    ExportedLine(cmp, script, 1, "PATH", SearchPath());
    ExportedLine(cmp, script, 2, "RUN_NAME", cmp.path + "/" + cmp.runName);
    ExportedLine(cmp, script, 3, "OUTPUT", "/box/output");
    ExportedLine(cmp, script, 4, "SOL_OUTPUT", "/box/sol_output");
  }

  // ---- comparing ----------------------------------------------------------------------------------

  /** What a compare that has ended like this says; None is an error. */
  ghost predicate CompareSays(e: Execution, o: Outcome) {
    if !e.exit.Succeeded? && e.exit != ExitStatus(1) then o == Error
    else if "compare_result.txt" !in e.box.files then o == Compared("")
    else match e.box.files["compare_result.txt"]
         case Data(said) => o == Compared(said)
         case Unreadable => o == Error
  }

  /**
   * A compare whose script is found runs in a box with just three files: the output, the expected output, and a script
   * that ends in the compare's own. Before that, the script gives the names OUTPUT and SOL_OUTPUT to the first two, and
   * RUN_NAME to the compare's program.
   */
  lemma CompareIsTold(env: Env, cmp: LocalCompare, output: string, expected: string, script: string)
    returns (text: string, box: Box)
    requires env.readConfig(cmp.path + "/run_script.sh") == Content(script)
    ensures |script| <= |text| && text[|text| - |script|..] == script
    ensures box == Box(map["output" := Data(output), "sol_output" := Data(expected), "run_script.sh" := Data(text)],
                       None)
    ensures Exported(text, "RUN_NAME") == Some(cmp.path + "/" + cmp.runName) <==>
            '\n' !in cmp.path && '\n' !in cmp.runName
    ensures '\n' !in cmp.path && '\n' !in cmp.runName ==>
              && Exported(text, "PATH") == Some("/usr/local/sbin:/usr/local/bin:" + "/usr/sbin:/usr/bin:/sbin:/bin")
              && Exported(text, "OUTPUT").Some? && Exported(text, "SOL_OUTPUT").Some?
              && FileAt(box, Exported(text, "OUTPUT").value) == Some(Data(output))
              && FileAt(box, Exported(text, "SOL_OUTPUT").value) == Some(Data(expected))
    ensures var files := [File("output", output), File("sol_output", expected), File("run_script.sh", text)];
            if !Writable(env, files) then CompareOutput(env, cmp, output, expected) == Error
            else CompareSays(env.compare(box, cmp.path), CompareOutput(env, cmp, output, expected))
  {
    text := Preamble(cmp) + script;
    if '\n' !in cmp.path && '\n' !in cmp.runName { ExportedLines(cmp, script); }
    ExportedHasNoNewline(text, "RUN_NAME");
    assert text[|text| - |script|..] == script;
    SearchPathText();
    hide Preamble, Exported, FileAt, SearchPath;
    var files := [File("output", output), File("sol_output", expected), File("run_script.sh", text)];
    box := Box(map["output" := Data(output), "sol_output" := Data(expected), "run_script.sh" := Data(text)], None);
    CompareInThreeFiles(env, cmp, output, expected, script, files);
    ThreeNames(files);
    DataFiles(box, output, expected);
  }

  lemma DataFiles(box: Box, output: string, expected: string)
    requires "output" in box.files && box.files["output"] == Data(output)
    requires "sol_output" in box.files && box.files["sol_output"] == Data(expected)
    ensures FileAt(box, "/box/output") == Some(Data(output))
    ensures FileAt(box, "/box/sol_output") == Some(Data(expected))
  {
    assert "/box/output"[5..] == "output" && "/box/sol_output"[5..] == "sol_output";
  }

  lemma ThreeNames(files: seq<File>)
    requires |files| == 3
    requires files[0].name == "output" && files[1].name == "sol_output" && files[2].name == "run_script.sh"
    ensures Write(Write(Write(Box(map[], None), files[0]), files[1]), files[2]) ==
            Box(map["output" := Data(files[0].content), "sol_output" := Data(files[1].content),
                    "run_script.sh" := Data(files[2].content)], None)
  {
  }

  lemma CompareInThreeFiles(env: Env, cmp: LocalCompare, output: string, expected: string, script: string,
                            files: seq<File>)
    requires env.readConfig(cmp.path + "/run_script.sh") == Content(script)
    requires files ==
             [File("output", output), File("sol_output", expected), File("run_script.sh", Preamble(cmp) + script)]
    ensures var box := Write(Write(Write(Box(map[], None), files[0]), files[1]), files[2]);
            if !Writable(env, files) then CompareOutput(env, cmp, output, expected) == Error
            else CompareSays(env.compare(box, cmp.path), CompareOutput(env, cmp, output, expected))
  {
    hide Preamble, BoxWith, Writable, WriteAll;
    assert files[..2] == [File("output", output), File("sol_output", expected)];
    ThreeFiles(env, files);
  }

  lemma ThreeFiles(env: Env, files: seq<File>)
    requires |files| == 3
    ensures BoxWith(files[..2]) == Write(Write(Box(map[], None), files[0]), files[1])
    ensures WriteAll(env, FRESH, files[..2]) ==
            if Writable(env, files[..2]) then Some(Write(Write(Box(map[], None), files[0]), files[1])) else None
    ensures Writable(env, files) <==> Writable(env, files[..2]) && env.canWrite(BoxWith(files[..2]), files[2])
  {
    WriteAllIff(env, files[..2]);
    hide HoldsExactly, WriteAll, BoxWith;
    assert files[..3] == files;
    TwoFiles(files[0], files[1]);
    assert files[..2] == [files[0], files[1]];
    if Writable(env, files) {
      WritablePrefix(env, files, 2);
    }
    if Writable(env, files[..2]) {
      WritableOneMore(env, files, 2);
    }
  }

  lemma TwoFiles(a: File, b: File)
    ensures BoxWith([a, b]) == Write(Write(Box(map[], None), a), b)
  {
    assert [a, b][..1] == [a] && [a][..0] == [];
    assert BoxWith([a]) == Write(Box(map[], None), a);
  }

  /** A missing script is a complaint, so the case fails; one that cannot be read is an error. */
  lemma NoScriptIsTold(env: Env, cmp: LocalCompare, output: string, expected: string)
    requires !env.readConfig(cmp.path + "/run_script.sh").Content?
    ensures var o := CompareOutput(env, cmp, output, expected);
            if Writable(env, [File("output", output), File("sol_output", expected)])
               && env.readConfig(cmp.path + "/run_script.sh").NotExist?
            then o.Compared? && "grader error: run_script.sh not found for compare " + env.quote(cmp.path) <= o.result
            else o == Error
  {
    WriteAllIff(env, [File("output", output), File("sol_output", expected)]);
    hide Writable, WriteAll, BoxWith;
  }
}
