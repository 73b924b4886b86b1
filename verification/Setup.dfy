/**
 * Setting up the compare scripts (internal/setup/setup.go): one goroutine a compare, interleaved, over a directory
 * tree; then the list of compares that the worker serves from that tree.
 */
module Setup {
  import opened Models
  import opened Replace

  const COMPARE_DIR := "/var/local/lib/worker/compares"

  type Directory = map<string, string>

  /** COMPARE_DIR, by the name of the directory. */
  type Tree = map<string, Directory>

  function ComparePath(id: string): string {
    COMPARE_DIR + "/" + id
  }

  function ScriptPath(c: CompareConfig): string {
    ComparePath(c.id) + "/" + c.runName
  }

  predicate Configured(c: CompareConfig) {
    c.runName != "" && c.files != []
  }

  // ---- one compare --------------------------------------------------------------------------------

  /** The goroutine's program counter, by the last thing it has done. */
  datatype Pc =
    | Started
    | HasBox | Initialised | FoundNoDir
    | MadeDir
    | Built(exe: string)
    | Writing(n: nat, hasRunFile: bool)
    | Skipping
    | GaveBoxBack
    | HasRunFile
    | WroteScript
    | Completed
    | Skipped
    | FoundDir
    | LeftBehind

  /** What the outside world does with the next system call; a failure is logged as fatal unless it says otherwise. */
  datatype Event =
    | Fine
    | Fails
    | Builds(exe: string)
    | BuildsNothing
    | RemovesPart(left: Directory)

  /** Nothing happens to the tree outside the goroutine's own directory, which is None where it does not exist. */
  datatype Effect = Fatal | Effect(pc: Pc, dir: Option<Directory>, boxes: int)

  function Try(e: Event, next: Effect): Effect {
    if e.Fails? then Fatal else next
  }

  /** The next step of a goroutine, given its own directory. */
  function Step(c: CompareConfig, pc: Pc, dir: Option<Directory>, e: Event): Effect {
    match pc
    case Started => if Configured(c) then Effect(HasBox, dir, -1) else Effect(Skipped, dir, 0)
    case HasBox => Try(e, Effect(Initialised, dir, 0))
    case Initialised => Try(e, Effect(if dir.Some? then FoundDir else FoundNoDir, dir, 0))
    case FoundNoDir => if dir.Some? then Fatal else Try(e, Effect(MadeDir, Some(map[]), 0))
    case MadeDir =>
      if c.buildScript == "" then Effect(Writing(0, false), dir, 0)
      else if e.Builds? then Effect(Built(e.exe), dir, 0)
      else Try(e, Effect(Skipping, dir, 0))
    case Built(exe) => if dir.None? then Fatal else Try(e, Effect(HasRunFile, Some(dir.value[c.runName := exe]), 0))
    case Writing(n, hasRunFile) =>
      if n >= |c.files| then Effect(if hasRunFile then HasRunFile else Skipping, dir, 0)
      else if dir.None? then Fatal
      else
        var f := c.files[n];
        Try(e, Effect(Writing(n + 1, hasRunFile || f.name == c.runName),
                      Some(dir.value[f.name := ReplaceEnv(f.content, ScriptPath(c))]), 0))
    case Skipping => Try(e, Effect(GaveBoxBack, dir, 1))
    case GaveBoxBack => if e.RemovesPart? then Effect(LeftBehind, Some(e.left), 0) else Effect(Skipped, None, 0)
    case HasRunFile =>
      if dir.None? then Fatal
      else Try(e, Effect(WroteScript, Some(dir.value["run_script.sh" := ReplaceEnv(c.runScript, ScriptPath(c))]), 0))
    case WroteScript => Try(e, Effect(Completed, dir, 1))
    case _ => Effect(pc, dir, 0)
  }

  predicate Ended(pc: Pc) {
    pc.Completed? || pc.Skipped? || pc.FoundDir? || pc.LeftBehind?
  }

  /** What the writing loop has put in the directory after n files. */
  function Written(c: CompareConfig, n: nat): Directory
    requires n <= |c.files|
  {
    if n == 0 then map[]
    else
      var f := c.files[n - 1];
      Written(c, n - 1)[f.name := ReplaceEnv(f.content, ScriptPath(c))]
  }

  predicate Names(files: seq<File>, name: string) {
    exists k :: 0 <= k < |files| && files[k].name == name
  }

  lemma {:induction false} WrittenNames(c: CompareConfig, n: nat)
    requires n <= |c.files|
    ensures forall k :: 0 <= k < n ==> c.files[k].name in Written(c, n)
  {
    if n > 0 {
      WrittenNames(c, n - 1);
    }
  }

  /** A directory that CompareOutput can use. */
  predicate Installed(c: CompareConfig, dir: Directory) {
    && c.runName in dir
    && "run_script.sh" in dir && dir["run_script.sh"] == ReplaceEnv(c.runScript, ScriptPath(c))
    && (c.buildScript == "" ==>
          dir == Written(c, |c.files|)["run_script.sh" := ReplaceEnv(c.runScript, ScriptPath(c))])
    && (c.buildScript != "" ==> dir.Keys == {c.runName, "run_script.sh"})
  }

  /** Without a build script, a compare can only be left out for want of a file of that name. */
  predicate MayBeSkipped(c: CompareConfig) {
    c.buildScript == "" ==> !Names(c.files, c.runName)
  }

  /** What holds of a goroutine and its directory at each point, when there was no such directory at the start. */
  ghost predicate GoroutineInv(c: CompareConfig, pc: Pc, dir: Option<Directory>) {
    && (!pc.Started? && !pc.Skipped? ==> Configured(c))
    && match pc
       case Started => dir.None?
       case HasBox => dir.None?
       case Initialised => dir.None?
       case FoundNoDir => dir.None?
       case MadeDir => dir == Some(map[])
       case Built(_) => dir == Some(map[]) && c.buildScript != ""
       case Writing(n, hasRunFile) =>
         && c.buildScript == "" && n <= |c.files| && dir == Some(Written(c, n))
         && (hasRunFile <==> Names(c.files[..n], c.runName))
       case Skipping => dir.Some? && MayBeSkipped(c)
       case GaveBoxBack => dir.Some? && MayBeSkipped(c)
       case HasRunFile =>
         && dir.Some? && c.runName in dir.value
         && (c.buildScript == "" ==> dir.value == Written(c, |c.files|) && Names(c.files, c.runName))
         && (c.buildScript != "" ==> dir.value.Keys == {c.runName})
       case WroteScript => dir.Some? && Installed(c, dir.value) && (c.buildScript == "" ==> Names(c.files, c.runName))
       case Completed => dir.Some? && Installed(c, dir.value) && (c.buildScript == "" ==> Names(c.files, c.runName))
       case Skipped => dir.None? && (Configured(c) ==> MayBeSkipped(c))
       case LeftBehind => dir.Some? && MayBeSkipped(c)
       case FoundDir => false
  }

  lemma NamesOneMore(files: seq<File>, n: nat, name: string)
    requires n < |files|
    ensures Names(files[..n + 1], name) <==> Names(files[..n], name) || files[n].name == name
  {
    if Names(files[..n + 1], name) && files[n].name != name {
      var k :| 0 <= k < n + 1 && files[..n + 1][k].name == name;
      assert files[..n][k].name == name;
    }
    if Names(files[..n], name) {
      var k :| 0 <= k < n && files[..n][k].name == name;
      assert files[..n + 1][k].name == name;
    }
    assert files[..n + 1][n] == files[n];
  }

  lemma StepKeepsGoroutine(c: CompareConfig, pc: Pc, dir: Option<Directory>, e: Event)
    requires GoroutineInv(c, pc, dir) && !Ended(pc)
    ensures var next := Step(c, pc, dir, e); next.Effect? ==> GoroutineInv(c, next.pc, next.dir)
  {
    hide ReplaceEnv;
    match pc
    case Writing(n, hasRunFile) =>
      if n < |c.files| {
        NamesOneMore(c.files, n, c.runName);
      } else {
        assert c.files[..n] == c.files;
        WrittenNames(c, n);
      }
    case MadeDir => assert !Names(c.files[..0], c.runName);
    case _ =>
  }

  // ---- the whole of one goroutine, when nothing fails ---------------------------------------------

  class ConfigDir {
    var tree: Tree

    /** The loop that writes a compare's files and looks for its run file among them. */
    method WriteFiles(c: CompareConfig) returns (hasRunFile: bool)
      requires c.id in tree && tree[c.id] == map[]
      modifies this
      ensures tree == old(tree)[c.id := Written(c, |c.files|)]
      ensures hasRunFile <==> Names(c.files, c.runName)
    {
      hasRunFile := false;
      for n := 0 to |c.files|
        invariant tree == old(tree)[c.id := Written(c, n)]
        invariant hasRunFile <==> Names(c.files[..n], c.runName)
      {
        NamesOneMore(c.files, n, c.runName);
        var f := c.files[n];
        if f.name == c.runName {
          hasRunFile := true;
        }
        var replacedContent := ReplaceEnv(f.content, ScriptPath(c));
        tree := tree[c.id := tree[c.id][f.name := replacedContent]];
      }
      assert c.files[..|c.files|] == c.files;
    }

    /** `exe` is what a build script leaves under the run name, if anything. A skipped compare leaves no trace. */
    method SetupCompare(c: CompareConfig, exe: Option<string>) returns (completed: bool)
      modifies this
      ensures completed <==> && Configured(c) && c.id !in old(tree)
                             && if c.buildScript == "" then Names(c.files, c.runName) else exe.Some?
      ensures completed ==> c.id in tree && tree == old(tree)[c.id := tree[c.id]] && Installed(c, tree[c.id])
      ensures completed && c.buildScript != "" && c.runName != "run_script.sh" ==> tree[c.id][c.runName] == exe.value
      ensures !completed ==> tree == old(tree)
    {
      if c.runName == "" || c.files == [] {
        return false;
      }
      if c.id in tree {
        return false;
      }
      tree := tree[c.id := map[]];
      if c.buildScript != "" {
        if exe.None? {
          tree := tree - {c.id};
          return false;
        }
        tree := tree[c.id := tree[c.id][c.runName := exe.value]];
      } else {
        var hasRunFile := WriteFiles(c);
        if !hasRunFile {
          tree := tree - {c.id};
          return false;
        }
        WrittenNames(c, |c.files|);
      }
      tree := tree[c.id := tree[c.id]["run_script.sh" := ReplaceEnv(c.runScript, ScriptPath(c))]];
      return true;
    }
  }
}
