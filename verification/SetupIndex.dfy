/** The list of compares agrees with the directories, and with what CompareOutput later reads from them. */
module SetupIndex {
  import opened Models
  import opened Replace
  import opened Setup
  import opened SetupRuns
  import opened Sandbox
  import opened GradeSpec
  import opened Outcomes

  function Local(c: CompareConfig): LocalCompare {
    LocalCompare(c.id, c.runName, ComparePath(c.id))
  }

  /** The compares that are configured and have a directory, in order. */
  function Listed(cs: seq<CompareConfig>, tree: Tree): seq<LocalCompare> {
    if cs == [] then []
    else
      var c := cs[|cs| - 1];
      Listed(cs[..|cs| - 1], tree) + if Configured(c) && c.id in tree then [Local(c)] else []
  }

  /** The loop of writeToComparesJson. */
  method WriteToComparesJson(compares: seq<CompareConfig>, tree: Tree) returns (localCompares: seq<LocalCompare>)
    ensures localCompares == Listed(compares, tree)
  {
    localCompares := [];
    for i := 0 to |compares|
      invariant localCompares == Listed(compares[..i], tree)
    {
      assert compares[..i + 1][..i] == compares[..i];
      var compare := compares[i];
      if compare.runName == "" || compare.files == [] {
        continue;
      }
      var comparePath := ComparePath(compare.id);
      if compare.id !in tree {
        continue;
      }
      localCompares := localCompares + [LocalCompare(compare.id, compare.runName, comparePath)];
    }
    assert compares[..|compares|] == compares;
  }

  /** The compares whose set-up completed, in order. */
  function CompletedOnes(cs: seq<CompareConfig>, pcs: seq<Pc>): seq<LocalCompare>
    requires |pcs| == |cs|
  {
    if cs == [] then []
    else
      var n := |cs| - 1;
      CompletedOnes(cs[..n], pcs[..n]) + if pcs[n].Completed? then [Local(cs[n])] else []
  }

  /** How a set-up that has ended left one compare. */
  predicate EndedWell(c: CompareConfig, pc: Pc, tree: Tree) {
    Configured(c) && c.id in tree <==> pc.Completed? || pc.LeftBehind?
  }

  lemma GoroutineEndedWell(c: CompareConfig, pc: Pc, tree: Tree)
    requires GoroutineInv(c, pc, DirOf(tree, c.id)) && Ended(pc)
    ensures EndedWell(c, pc, tree)
    ensures pc.Completed? ==> c.id in tree && Installed(c, tree[c.id])
  {
    hide Installed;
  }

  lemma {:induction false} ListedIsCompleted(cs: seq<CompareConfig>, pcs: seq<Pc>, tree: Tree)
    requires |pcs| == |cs| && forall i :: 0 <= i < |cs| ==> EndedWell(cs[i], pcs[i], tree)
    ensures |CompletedOnes(cs, pcs)| <= |Listed(cs, tree)|
    ensures |CompletedOnes(cs, pcs)| == |Listed(cs, tree)| <==> forall i :: 0 <= i < |cs| ==> !pcs[i].LeftBehind?
    ensures (forall i :: 0 <= i < |cs| ==> !pcs[i].LeftBehind?) ==> CompletedOnes(cs, pcs) == Listed(cs, tree)
  {
    hide Configured;
    if cs != [] {
      var n := |cs| - 1;
      ListedIsCompleted(cs[..n], pcs[..n], tree);
      assert EndedWell(cs[n], pcs[n], tree);
      assert (forall i :: 0 <= i < |cs| ==> !pcs[i].LeftBehind?)
             <==> (forall i :: 0 <= i < n ==> !pcs[..n][i].LeftBehind?) && !pcs[n].LeftBehind?;
    }
  }

  /**
   * After every interleaving of the set-up goroutines that does not end the process, the list is in input order exactly
   * the compares whose set-up completed, if and only if no half-made directory was left behind, whose removal failed
   * unnoticed.
   */
  lemma ListIsExactIff(cs: seq<CompareConfig>, s: State)
    requires DistinctIds(cs) && Reachable(cs, s) && AllEnded(s)
    ensures |s.pcs| == |cs|
    ensures Listed(cs, s.tree) == CompletedOnes(cs, s.pcs) <==> forall i :: 0 <= i < |cs| ==> !s.pcs[i].LeftBehind?
  {
    hide Reachable, GoroutineInv, Ended;
    InvWhenReachable(cs, s);
    forall i | 0 <= i < |cs| ensures EndedWell(cs[i], s.pcs[i], s.tree) {
      GoroutineEndedWell(cs[i], s.pcs[i], s.tree);
    }
    ListedIsCompleted(cs, s.pcs, s.tree);
  }

  /** A compare without a build script completes exactly when it is configured and one of its files is the run file. */
  lemma CompletesIff(cs: seq<CompareConfig>, s: State, i: nat)
    requires DistinctIds(cs) && Reachable(cs, s) && AllEnded(s) && i < |cs| && cs[i].buildScript == ""
    ensures |s.pcs| == |cs|
    ensures s.pcs[i].Completed? <==> Configured(cs[i]) && Names(cs[i].files, cs[i].runName)
  {
    hide Reachable, Installed;
    InvWhenReachable(cs, s);
    assert GoroutineInv(cs[i], s.pcs[i], DirOf(s.tree, cs[i].id));
  }

  /** No later file of the compare has this file's name. */
  ghost predicate LastOfItsName(files: seq<File>, k: nat) {
    k < |files| && forall j :: k < j < |files| ==> files[j].name != files[k].name
  }

  lemma {:induction false} WrittenTells(c: CompareConfig, n: nat, k: nat)
    requires k < n <= |c.files| && forall j :: k < j < n ==> c.files[j].name != c.files[k].name
    ensures c.files[k].name in Written(c, n)
    ensures FilledIn(c.files[k].content, ScriptPath(c), Written(c, n)[c.files[k].name])
  {
    hide ReplaceEnv, FilledIn, ScriptPath;
    if k == n - 1 {
      ReplaceEnvFillsIn(c.files[k].content, ScriptPath(c));
    } else {
      WrittenTells(c, n - 1, k);
    }
  }

  /** A directory with just its run file and its script, or else, without a build script, with the compare's files. */
  ghost predicate Complete(c: CompareConfig, dir: Directory) {
    var path := "/var/local/lib/worker/compares/" + c.id + "/" + c.runName;
    && c.runName in dir
    && "run_script.sh" in dir && FilledIn(c.runScript, path, dir["run_script.sh"])
    && (c.buildScript != "" ==> dir.Keys == {c.runName, "run_script.sh"})
    && (c.buildScript == "" ==>
          && (forall name :: name in dir ==> name == "run_script.sh" || Names(c.files, name))
          && forall k: nat :: LastOfItsName(c.files, k) && c.files[k].name != "run_script.sh" ==>
               c.files[k].name in dir && FilledIn(c.files[k].content, path, dir[c.files[k].name]))
  }

  lemma {:induction false} WrittenIsNamed(c: CompareConfig, n: nat)
    requires n <= |c.files|
    ensures forall name :: name in Written(c, n) ==> Names(c.files, name)
  {
    hide ReplaceEnv;
    if n > 0 {
      WrittenIsNamed(c, n - 1);
      assert Names(c.files, c.files[n - 1].name);
    }
  }

  lemma InstalledIsComplete(c: CompareConfig, dir: Directory)
    requires Installed(c, dir)
    ensures Complete(c, dir)
  {
    hide ReplaceEnv, FilledIn, Names, Written;
    assert ScriptPath(c) == "/var/local/lib/worker/compares/" + c.id + "/" + c.runName by { PathOf(c.id); }
    hide ScriptPath;
    ReplaceEnvFillsIn(c.runScript, ScriptPath(c));
    if c.buildScript == "" {
      WrittenIsNamed(c, |c.files|);
      forall k: nat | LastOfItsName(c.files, k)
        ensures c.files[k].name in Written(c, |c.files|)
        ensures FilledIn(c.files[k].content, ScriptPath(c), Written(c, |c.files|)[c.files[k].name])
      {
        WrittenTells(c, |c.files|, k);
      }
    }
  }

  lemma PathOf(id: string)
    ensures ComparePath(id) == "/var/local/lib/worker/compares/" + id
  {
    assert COMPARE_DIR + "/" == "/var/local/lib/worker/compares/";
  }

  /** The directory of a completed compare has its run file and its run script, with the placeholder filled in. */
  lemma CompletedIsInstalled(cs: seq<CompareConfig>, s: State, i: nat)
    requires DistinctIds(cs) && Reachable(cs, s) && AllEnded(s) && i < |cs|
    ensures |s.pcs| == |cs|
    ensures s.pcs[i].Completed? ==> cs[i].id in s.tree && Complete(cs[i], s.tree[cs[i].id])
  {
    hide Reachable, Installed, Complete;
    InvWhenReachable(cs, s);
    GoroutineEndedWell(cs[i], s.pcs[i], s.tree);
    if s.pcs[i].Completed? { InstalledIsComplete(cs[i], s.tree[cs[i].id]); }
  }

  // ---- the entries of the list --------------------------------------------------------------------

  /** Where each listed compare stands among the configured ones: those with a directory, in their order. */
  function ListedPlaces(cs: seq<CompareConfig>, tree: Tree): seq<nat> {
    if cs == [] then []
    else
      var n := |cs| - 1;
      ListedPlaces(cs[..n], tree) + if cs[n].runName != "" && cs[n].files != [] && cs[n].id in tree then [n] else []
  }

  /** The list has an entry for each configured compare with a directory, and no other, in the order of the input. */
  lemma {:induction false} ListedIsTold(cs: seq<CompareConfig>, tree: Tree)
    ensures var (list, places) := (Listed(cs, tree), ListedPlaces(cs, tree));
            && |list| == |places|
            && (forall i, j :: 0 <= i < j < |places| ==> places[i] < places[j])
            && (forall n: nat :: n in places <==>
                                 n < |cs| && cs[n].runName != "" && cs[n].files != [] && cs[n].id in tree)
            && forall i :: 0 <= i < |places| ==>
                 && places[i] < |cs|
                 && var c := cs[places[i]];
                    list[i] == LocalCompare(c.id, c.runName, "/var/local/lib/worker/compares/" + c.id)
  {
    if cs != [] {
      var n := |cs| - 1;
      ListedIsTold(cs[..n], tree);
      PathOf(cs[n].id);
      hide ComparePath;
      var before := ListedPlaces(cs[..n], tree);
      forall i | 0 <= i < |before| ensures before[i] < n { assert before[i] in before; }
      forall k: nat ensures k in ListedPlaces(cs, tree) <==>
                            k < |cs| && cs[k].runName != "" && cs[k].files != [] && cs[k].id in tree {
        assert k < n ==> cs[..n][k] == cs[k];
      }
    }
  }

  // ---- what CompareOutput reads -------------------------------------------------------------------

  /** The worker reads its configuration from this tree. */
  ghost predicate ReadsFrom(env: Env, tree: Tree) {
    forall id, name :: id in tree && name in tree[id] ==>
      env.readConfig(ComparePath(id) + "/" + name) == Content(tree[id][name])
  }

  lemma {:induction false} CompletedComesFrom(cs: seq<CompareConfig>, pcs: seq<Pc>, cmp: LocalCompare) returns (i: nat)
    requires |pcs| == |cs| && cmp in CompletedOnes(cs, pcs)
    ensures i < |cs| && pcs[i].Completed? && cmp == Local(cs[i])
  {
    var n := |cs| - 1;
    if pcs[n].Completed? && cmp == Local(cs[n]) {
      i := n;
    } else {
      i := CompletedComesFrom(cs[..n], pcs[..n], cmp);
    }
  }

  lemma RunScriptPath(dir: string)
    ensures dir + "/run_script.sh" == dir + "/" + "run_script.sh"
  {
  }

  /** What CompareOutput finds for a listed compare: its run script, and the file that the compare runs. */
  lemma ScriptIsFound(cs: seq<CompareConfig>, s: State, env: Env, cmp: LocalCompare) returns (i: nat, script: string)
    requires DistinctIds(cs) && Reachable(cs, s) && AllEnded(s) && ReadsFrom(env, s.tree)
    requires |s.pcs| == |cs| && forall k :: 0 <= k < |cs| ==> !s.pcs[k].LeftBehind?
    requires cmp in Listed(cs, s.tree)
    ensures i < |cs| && cmp == LocalCompare(cs[i].id, cs[i].runName, "/var/local/lib/worker/compares/" + cs[i].id)
    ensures env.readConfig(cmp.path + "/run_script.sh") == Content(script)
    ensures FilledIn(cs[i].runScript, cmp.path + "/" + cmp.runName, script)
    ensures env.readConfig(cmp.path + "/" + cmp.runName).Content?
  {
    assert s.Up?;
    hide Reachable, AllEnded, FilledIn, Listed;
    ListIsExactIff(cs, s);
    i := CompletedComesFrom(cs, s.pcs, cmp);
    CompletedIsInstalled(cs, s, i);
    PathOf(cs[i].id);
    hide ComparePath;
    var dir := s.tree[cs[i].id];
    assert "run_script.sh" in dir && cs[i].runName in dir;
    script := dir["run_script.sh"];
    RunScriptPath(cmp.path);
  }

  /**
   * For a compare on the list, CompareOutput runs a script that ends in the configured one, with its placeholder filled
   * in. Its exports name the very path that was filled in, where there is a file, and the two data files; they and the
   * script are all there is in the box. What the compare then says is what counts.
   */
  lemma ListedComparesWork(cs: seq<CompareConfig>, s: State, env: Env, cmp: LocalCompare,
                           output: string, expected: string)
    returns (i: nat, script: string, text: string, box: Box)
    requires DistinctIds(cs) && Reachable(cs, s) && AllEnded(s) && ReadsFrom(env, s.tree)
    requires |s.pcs| == |cs| && forall k :: 0 <= k < |cs| ==> !s.pcs[k].LeftBehind?
    requires cmp in Listed(cs, s.tree)
    ensures i < |cs| && cmp == LocalCompare(cs[i].id, cs[i].runName, "/var/local/lib/worker/compares/" + cs[i].id)
    ensures FilledIn(cs[i].runScript, cmp.path + "/" + cmp.runName, script)
    ensures |script| <= |text| && text[|text| - |script|..] == script
    ensures env.readConfig(cmp.path + "/" + cmp.runName).Content?
    ensures box == Box(map["output" := Data(output), "sol_output" := Data(expected), "run_script.sh" := Data(text)],
                       None)
    ensures '\n' !in cmp.path && '\n' !in cmp.runName ==>
              && Exported(text, "RUN_NAME") == Some(cmp.path + "/" + cmp.runName)
              && Exported(text, "OUTPUT").Some? && Exported(text, "SOL_OUTPUT").Some?
              && FileAt(box, Exported(text, "OUTPUT").value) == Some(Data(output))
              && FileAt(box, Exported(text, "SOL_OUTPUT").value) == Some(Data(expected))
    ensures var files := [File("output", output), File("sol_output", expected), File("run_script.sh", text)];
            if !Writable(env, files) then CompareOutput(env, cmp, output, expected) == Error
            else CompareSays(env.compare(box, cmp.path), CompareOutput(env, cmp, output, expected))
  {
    hide Reachable, AllEnded, FilledIn, Listed, Exported, FileAt, Writable, CompareOutput, CompareSays;
    i, script := ScriptIsFound(cs, s, env, cmp);
    text, box := CompareIsTold(env, cmp, output, expected, script);
  }

  /** Such a run script has no placeholder left when neither the compare's id nor its run name has a '$'. */
  lemma RunScriptHasNoPlaceholder(c: CompareConfig, dir: Directory)
    requires Installed(c, dir) && '$' !in c.id && '$' !in c.runName
    ensures !Contains(dir["run_script.sh"], "$RUN_NAME")
  {
    NoDollarIsEnough(ScriptPath(c), c.runScript);
  }
}
