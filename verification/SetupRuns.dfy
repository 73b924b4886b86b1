/** Every interleaving of the set-up goroutines, and the list that is written after them (internal/setup/setup.go). */
module SetupRuns {
  import opened Models
  import opened Replace
  import opened Setup

  /** A fatal log ends the process; `free` counts the ids in the channel of boxes. */
  datatype State = Exited | Up(tree: Tree, free: int, pcs: seq<Pc>)

  datatype Move = Move(i: nat, event: Event)

  function DirOf(tree: Tree, id: string): Option<Directory> {
    if id in tree then Some(tree[id]) else None
  }

  function WithDir(tree: Tree, id: string, dir: Option<Directory>): Tree {
    if dir.Some? then tree[id := dir.value] else tree - {id}
  }

  predicate Enabled(cs: seq<CompareConfig>, s: State, m: Move) {
    && s.Up? && |s.pcs| == |cs| && m.i < |cs| && !Ended(s.pcs[m.i])
    && (s.pcs[m.i].Started? && Configured(cs[m.i]) ==> s.free > 0)
  }

  function Apply(cs: seq<CompareConfig>, s: State, m: Move): State
    requires Enabled(cs, s, m)
  {
    var c := cs[m.i];
    match Step(c, s.pcs[m.i], DirOf(s.tree, c.id), m.event)
    case Fatal => Exited
    case Effect(pc, dir, boxes) => Up(WithDir(s.tree, c.id, dir), s.free + boxes, s.pcs[m.i := pc])
  }

  /** An empty configuration directory, and as many boxes as compares. */
  function Start(cs: seq<CompareConfig>): State {
    Up(map[], |cs|, seq(|cs|, _ => Started))
  }

  ghost predicate Next(cs: seq<CompareConfig>, s: State, s': State) {
    exists m :: Enabled(cs, s, m) && s' == Apply(cs, s, m)
  }

  ghost predicate Run(cs: seq<CompareConfig>, run: seq<State>) {
    run != [] && run[0] == Start(cs) && forall i :: 0 <= i < |run| - 1 ==> Next(cs, run[i], run[i + 1])
  }

  ghost predicate Reachable(cs: seq<CompareConfig>, s: State) {
    exists run :: Run(cs, run) && run[|run| - 1] == s
  }

  ghost predicate DistinctIds(cs: seq<CompareConfig>) {
    forall i, j :: 0 <= i < j < |cs| ==> cs[i].id != cs[j].id
  }

  /** wg.Wait has returned. */
  ghost predicate AllEnded(s: State) {
    s.Up? && forall i :: 0 <= i < |s.pcs| ==> Ended(s.pcs[i])
  }

  // ---- the invariant ------------------------------------------------------------------------------

  function Waiting(pcs: seq<Pc>): nat {
    if pcs == [] then 0 else Waiting(pcs[..|pcs| - 1]) + if pcs[|pcs| - 1].Started? then 1 else 0
  }

  lemma {:induction false} WaitingUpdate(pcs: seq<Pc>, i: nat, pc: Pc)
    requires i < |pcs|
    ensures Waiting(pcs[i := pc]) + (if pcs[i].Started? then 1 else 0) == Waiting(pcs) + if pc.Started? then 1 else 0
  {
    var n := |pcs| - 1;
    if i == n {
      assert pcs[i := pc][..n] == pcs[..n];
    } else {
      WaitingUpdate(pcs[..n], i, pc);
      assert pcs[i := pc][..n] == pcs[..n][i := pc];
    }
  }

  lemma {:induction false} AllWaiting(n: nat)
    ensures Waiting(seq(n, _ => Started)) == n
  {
    if n > 0 {
      AllWaiting(n - 1);
      assert seq<Pc>(n, _ => Started)[..n - 1] == seq<Pc>(n - 1, _ => Started);
    }
  }

  /** Each goroutine stands where its directory says, and a box is left for each that has not started. */
  ghost predicate Inv(cs: seq<CompareConfig>, s: State) {
    s.Up? ==>
      && |s.pcs| == |cs|
      && Waiting(s.pcs) <= s.free
      && forall i :: 0 <= i < |cs| ==> GoroutineInv(cs[i], s.pcs[i], DirOf(s.tree, cs[i].id))
  }

  lemma StartInv(cs: seq<CompareConfig>)
    ensures Inv(cs, Start(cs))
  {
    AllWaiting(|cs|);
  }

  lemma StepBoxes(c: CompareConfig, pc: Pc, dir: Option<Directory>, e: Event)
    requires !Ended(pc)
    ensures var next := Step(c, pc, dir, e);
            next.Effect? ==> !next.pc.Started? && next.boxes >= if pc.Started? then -1 else 0
  {
    hide ReplaceEnv;
  }

  lemma StepKeepsInv(cs: seq<CompareConfig>, s: State, m: Move)
    requires DistinctIds(cs) && Inv(cs, s) && Enabled(cs, s, m)
    ensures Inv(cs, Apply(cs, s, m))
  {
    hide Step, GoroutineInv;
    var c := cs[m.i];
    var dir := DirOf(s.tree, c.id);
    StepKeepsGoroutine(c, s.pcs[m.i], dir, m.event);
    StepBoxes(c, s.pcs[m.i], dir, m.event);
    var next := Step(c, s.pcs[m.i], dir, m.event);
    if next.Effect? {
      WaitingUpdate(s.pcs, m.i, next.pc);
      forall i | 0 <= i < |cs| && i != m.i
        ensures DirOf(WithDir(s.tree, c.id, next.dir), cs[i].id) == DirOf(s.tree, cs[i].id)
      {
        assert cs[i].id != c.id;
      }
    }
  }

  lemma {:induction false} InvInEveryRun(cs: seq<CompareConfig>, run: seq<State>, i: nat)
    requires DistinctIds(cs) && Run(cs, run) && i < |run|
    ensures Inv(cs, run[i])
  {
    hide Inv, Start, Apply, Enabled;
    if i == 0 {
      StartInv(cs);
    } else {
      InvInEveryRun(cs, run, i - 1);
      assert Next(cs, run[i - 1], run[i - 1 + 1]);
      var m :| Enabled(cs, run[i - 1], m) && run[i] == Apply(cs, run[i - 1], m);
      StepKeepsInv(cs, run[i - 1], m);
    }
  }

  lemma InvWhenReachable(cs: seq<CompareConfig>, s: State)
    requires DistinctIds(cs) && Reachable(cs, s)
    ensures Inv(cs, s)
  {
    hide Inv, Next, Start;
    var run :| Run(cs, run) && run[|run| - 1] == s;
    InvInEveryRun(cs, run, |run| - 1);
  }

  // ---- no goroutine waits for ever ----------------------------------------------------------------

  lemma {:induction false} WaitingForOne(pcs: seq<Pc>, i: nat)
    requires i < |pcs| && pcs[i].Started?
    ensures Waiting(pcs) > 0
  {
    if i < |pcs| - 1 {
      WaitingForOne(pcs[..|pcs| - 1], i);
    }
  }

  /** Whatever happens, a goroutine that has not ended can go on: NewRunInstance never blocks. */
  lemma NoDeadlock(cs: seq<CompareConfig>, s: State, m: Move)
    requires DistinctIds(cs) && Reachable(cs, s) && s.Up?
    ensures |s.pcs| == |cs|
    ensures m.i < |cs| && !Ended(s.pcs[m.i]) ==> Enabled(cs, s, m)
  {
    InvWhenReachable(cs, s);
    if m.i < |cs| && s.pcs[m.i].Started? {
      WaitingForOne(s.pcs, m.i);
    }
  }

  /** How many more steps a goroutine can take. */
  function Rest(c: CompareConfig, pc: Pc): nat {
    var files := |c.files|;
    match pc
    case Started => files + 9
    case HasBox => files + 8
    case Initialised => files + 7
    case FoundNoDir => files + 6
    case MadeDir => files + 5
    case Built(_) => 4
    case Writing(n, _) => 4 + if n < files then files - n else 0
    case HasRunFile => 3
    case WroteScript => 2
    case Skipping => 2
    case GaveBoxBack => 1
    case _ => 0
  }

  function TotalRest(cs: seq<CompareConfig>, pcs: seq<Pc>): nat
    requires |pcs| <= |cs|
  {
    if pcs == [] then 0
    else
      var n := |pcs| - 1;
      TotalRest(cs, pcs[..n]) + Rest(cs[n], pcs[n])
  }

  lemma {:induction false} TotalRestUpdate(cs: seq<CompareConfig>, pcs: seq<Pc>, i: nat, pc: Pc)
    requires i < |pcs| <= |cs|
    ensures TotalRest(cs, pcs[i := pc]) + Rest(cs[i], pcs[i]) == TotalRest(cs, pcs) + Rest(cs[i], pc)
  {
    hide Rest;
    var n := |pcs| - 1;
    if i == n {
      assert pcs[i := pc][..n] == pcs[..n];
    } else {
      TotalRestUpdate(cs, pcs[..n], i, pc);
      assert pcs[i := pc][..n] == pcs[..n][i := pc];
    }
  }

  lemma StepUsesOwnRest(c: CompareConfig, pc: Pc, dir: Option<Directory>, e: Event)
    requires !Ended(pc)
    ensures var next := Step(c, pc, dir, e); next.Effect? ==> Rest(c, next.pc) < Rest(c, pc)
  {
    hide ReplaceEnv;
  }

  /** Every step of every interleaving uses up some of the work. */
  lemma StepUsesRest(cs: seq<CompareConfig>, s: State, m: Move)
    requires Enabled(cs, s, m)
    ensures var s' := Apply(cs, s, m); s'.Up? ==> |s'.pcs| == |cs| && TotalRest(cs, s'.pcs) < TotalRest(cs, s.pcs)
  {
    hide Step, Rest;
    var c := cs[m.i];
    var next := Step(c, s.pcs[m.i], DirOf(s.tree, c.id), m.event);
    StepUsesOwnRest(c, s.pcs[m.i], DirOf(s.tree, c.id), m.event);
    if next.Effect? {
      TotalRestUpdate(cs, s.pcs, m.i, next.pc);
    }
  }
}
