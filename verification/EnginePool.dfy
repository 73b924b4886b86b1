/** Box conservation and mutual exclusion in every interleaving. */
module EnginePool {
  import opened Sandbox
  import opened GradeSpec
  import opened BoxWork
  import opened Sequences
  import opened Engine

  predicate HasBox(pc: Pc) { pc.Acquired? || pc.InBox? }

  predicate Holds(s: State, u: Unit, b: int)
    requires s.Up?
  {
    HasBox(PcOf(s, u)) && PcOf(s, u).box == b
  }

  ghost predicate FreeOk(cfg: Config, s: State, k: Kind)
    requires s.Up?
  {
    NoDups(Free(s, k)) && forall b :: b in Free(s, k) ==> b in BoxIds(cfg, k)
  }

  ghost predicate HeldOk(cfg: Config, s: State)
    requires s.Up?
  {
    && (forall u :: HasBox(PcOf(s, u)) ==> ValidUnit(cfg, u) && PcOf(s, u).box in BoxIds(cfg, KindOf(u))
                                           && PcOf(s, u).box !in Free(s, KindOf(u)))
    && (forall u, v :: HasBox(PcOf(s, u)) && HasBox(PcOf(s, v)) && PcOf(s, u).box == PcOf(s, v).box ==> u == v)
  }

  ghost predicate NoneLost(cfg: Config, s: State, k: Kind)
    requires s.Up?
  {
    forall b :: b in BoxIds(cfg, k) && b !in Free(s, k) ==> exists u :: KindOf(u) == k && Holds(s, u, b)
  }

  ghost predicate BoxInv(cfg: Config, s: State) {
    s.Up? ==> HeldOk(cfg, s) && forall k: Kind :: FreeOk(cfg, s, k) && NoneLost(cfg, s, k)
  }

  lemma InitialBoxes(cfg: Config, s: State)
    requires Initial(cfg, s)
    ensures BoxInv(cfg, s)
  {
    forall k: Kind ensures FreeOk(cfg, s, k) && NoneLost(cfg, s, k) {
    }
  }

  /** A step of unit u that neither takes nor returns a box. */
  lemma SameHolders(cfg: Config, s: State, s': State, u: Unit)
    requires BoxInv(cfg, s) && s.Up? && s'.Up?
    requires s'.runFree == s.runFree && s'.gradeFree == s.gradeFree
    requires s'.pcs == s.pcs[u := PcOf(s', u)] || s'.pcs == s.pcs
    requires HasBox(PcOf(s', u)) <==> HasBox(PcOf(s, u))
    requires HasBox(PcOf(s, u)) ==> PcOf(s', u).box == PcOf(s, u).box
    ensures BoxInv(cfg, s')
  {
    forall v ensures HasBox(PcOf(s', v)) <==> HasBox(PcOf(s, v))
             ensures HasBox(PcOf(s, v)) ==> PcOf(s', v).box == PcOf(s, v).box {}
    forall k: Kind ensures FreeOk(cfg, s', k) && NoneLost(cfg, s', k) {
      assert FreeOk(cfg, s, k) && NoneLost(cfg, s, k);
      forall b | b in BoxIds(cfg, k) && b !in Free(s', k) ensures exists v :: KindOf(v) == k && Holds(s', v, b) {
        var v :| KindOf(v) == k && Holds(s, v, b);
        assert Holds(s', v, b);
      }
    }
  }

  lemma ReceiveKeepsBoxes(cfg: Config, s: State, u: Unit)
    requires BoxInv(cfg, s) && s.Up? && Enabled(cfg, s, Receive(u))
    ensures BoxInv(cfg, Apply(cfg, s, Receive(u)))
  {
    var s' := Apply(cfg, s, Receive(u));
    var k0 := KindOf(u);
    var free := Free(s, k0);
    assert FreeOk(cfg, s, k0);
    assert free[0] in free && free[0] in BoxIds(cfg, k0);
    assert forall b :: b in free <==> b == free[0] || b in free[1..];
    assert Holds(s', u, free[0]);
    forall v | v != u ensures PcOf(s', v) == PcOf(s, v) {}
    forall v | HasBox(PcOf(s, v)) ensures PcOf(s, v).box != free[0] {
      if KindOf(v) != k0 { DisjointPools(cfg, PcOf(s, v).box, free[0], KindOf(v)); }
    }
    forall k: Kind ensures FreeOk(cfg, s', k) && NoneLost(cfg, s', k) {
      assert FreeOk(cfg, s, k) && NoneLost(cfg, s, k);
      forall b | b in BoxIds(cfg, k) && b !in Free(s', k) ensures exists v :: KindOf(v) == k && Holds(s', v, b) {
        if b !in Free(s, k) {
          var v :| KindOf(v) == k && Holds(s, v, b);
          assert Holds(s', v, b);
        }
      }
    }
  }

  lemma DisjointPools(cfg: Config, a: int, b: int, k: Kind)
    requires a in BoxIds(cfg, k) && b in BoxIds(cfg, if k.RunPool? then GradePool else RunPool)
    ensures a != b
  {
  }

  lemma ReleaseKeepsBoxes(cfg: Config, s: State, u: Unit, left: Box)
    requires BoxInv(cfg, s) && s.Up? && Enabled(cfg, s, Release(u, left))
    ensures BoxInv(cfg, Apply(cfg, s, Release(u, left)))
  {
    hide AfterBox, BoxInv;
    var s' := Apply(cfg, s, Release(u, left));
    NoBoxAfter(cfg, u, PcOf(s, u).duty, PcOf(s, u).stage.outcome);
    forall v | v != u ensures PcOf(s', v) == PcOf(s, v) {}
    BoxReturned(cfg, s, s', u);
  }

  /** Unit u has put its box back at the end of its pool's channel, and nothing else has moved. */
  lemma BoxReturned(cfg: Config, s: State, s': State, u: Unit)
    requires BoxInv(cfg, s) && s.Up? && s'.Up? && HasBox(PcOf(s, u)) && !HasBox(PcOf(s', u))
    requires Free(s', KindOf(u)) == Free(s, KindOf(u)) + [PcOf(s, u).box]
    requires forall k: Kind :: k != KindOf(u) ==> Free(s', k) == Free(s, k)
    requires forall v :: v != u ==> PcOf(s', v) == PcOf(s, v)
    ensures BoxInv(cfg, s')
  {
    var k0 := KindOf(u);
    var box := PcOf(s, u).box;
    assert Free(s', k0)[|Free(s, k0)|] == box;
    forall k: Kind ensures FreeOk(cfg, s', k) && NoneLost(cfg, s', k) {
      assert FreeOk(cfg, s, k) && NoneLost(cfg, s, k);
      forall b | b in BoxIds(cfg, k) && b !in Free(s', k) ensures exists v :: KindOf(v) == k && Holds(s', v, b) {
        var v :| KindOf(v) == k && Holds(s, v, b);
        assert Holds(s', v, b);
      }
    }
    forall v | HasBox(PcOf(s', v)) ensures PcOf(s', v).box !in Free(s', KindOf(v)) {
      assert v != u && PcOf(s, v).box != box;
    }
  }

  lemma NoBoxAfter(cfg: Config, u: Unit, d: Duty, o: Outcome)
    requires ValidUnit(cfg, u)
    ensures !HasBox(AfterBox(cfg, u, d, o))
  {
  }

  /** A step of a case or request that is neither receiving nor returning a box. */
  lemma UnitStepKeepsBoxes(cfg: Config, s: State, a: Action)
    requires BoxInv(cfg, s) && s.Up? && Enabled(cfg, s, a)
    requires a.Init? || a.Work? || a.Kill? || a.Fold? || a.Fail? || a.Exit?
    ensures BoxInv(cfg, Apply(cfg, s, a))
  {
    hide StageStep;
    hide OfCase;
    hide Plus;
    hide BoxInv;
    SameHolders(cfg, s, Apply(cfg, s, a), a.u);
  }

  lemma StepKeepsBoxes(cfg: Config, s: State, a: Action)
    requires BoxInv(cfg, s) && s.Up? && Enabled(cfg, s, a)
    requires a.LaunchCase? ==> PcOf(s, Case(a.j, a.g, GroupOf(s, a.j, a.g).next)).Idle?
    ensures BoxInv(cfg, Apply(cfg, s, a))
  {
    hide StageStep;
    hide FirstDuty;
    hide AfterBox;
    hide OfGroup;
    hide Plus;
    hide Summary;
    hide BoxInv;
    var s' := Apply(cfg, s, a);
    match a
    case Receive(u) => ReceiveKeepsBoxes(cfg, s, u);
    case Release(u, left) => ReleaseKeepsBoxes(cfg, s, u, left);
    case InitFails(_) => CrashKeepsBoxes(cfg);
    case CleanupFails(_) => CrashKeepsBoxes(cfg);
    case Arrive(k) => SameHolders(cfg, s, s', Request(k));
    case LaunchCase(j, g) => SameHolders(cfg, s, s', Case(j, g, GroupOf(s, j, g).next));
    case LaunchGroup(_) => SameHolders(cfg, s, s', Request(0));
    case FinishGroup(_, _) => SameHolders(cfg, s, s', Request(0));
    case ExitGroup(_, _) => SameHolders(cfg, s, s', Request(0));
    case FinishJob(_) => SameHolders(cfg, s, s', Request(0));
    case _ => UnitStepKeepsBoxes(cfg, s, a);
  }

  lemma CrashKeepsBoxes(cfg: Config)
    ensures BoxInv(cfg, Crashed)
  {
  }

  // ---- what the invariant means -------------------------------------------------------------------

  /** The units of a pool that hold a box. */
  ghost function Holders(s: State, k: Kind): set<Unit>
    requires s.Up?
  {
    set u | u in s.pcs && KindOf(u) == k && HasBox(PcOf(s, u))
  }

  ghost function BoxHeldBy(s: State): Unit -> int
    requires s.Up?
  {
    u => if HasBox(PcOf(s, u)) then PcOf(s, u).box else -1
  }

  function Elements<T>(q: seq<T>): set<T> { set x | x in q }

  lemma {:induction false} BijectionSize<A, B>(a: set<A>, b: set<B>, f: A -> B)
    requires forall x, y :: x in a && y in a && f(x) == f(y) ==> x == y
    requires forall x :: x in a ==> f(x) in b
    requires forall y :: y in b ==> exists x :: x in a && f(x) == y
    ensures |a| == |b|
  {
    if a != {} {
      var x :| x in a;
      forall y | y in b - {f(x)} ensures exists z :: z in a - {x} && f(z) == y {
        var z :| z in a && f(z) == y;
        assert z in a - {x};
      }
      BijectionSize(a - {x}, b - {f(x)}, f);
    } else {
      assert forall y :: y !in b;
    }
  }

  lemma {:induction false} ElementsSize<T>(q: seq<T>)
    requires NoDups(q)
    ensures |Elements(q)| == |q|
  {
    if q != [] {
      ElementsSize(q[1..]);
      assert Elements(q) == {q[0]} + Elements(q[1..]);
    }
  }

  ghost function HeldIds(s: State, k: Kind): set<int>
    requires s.Up?
  {
    set u | u in Holders(s, k) :: PcOf(s, u).box
  }

  lemma HeldAreTheRest(cfg: Config, s: State, k: Kind)
    requires BoxInv(cfg, s) && s.Up?
    ensures HeldIds(s, k) == Elements(BoxIds(cfg, k)) - Elements(Free(s, k))
  {
    assert FreeOk(cfg, s, k) && NoneLost(cfg, s, k);
    forall b | b in Elements(BoxIds(cfg, k)) - Elements(Free(s, k)) ensures b in HeldIds(s, k) {
      var u :| KindOf(u) == k && Holds(s, u, b);
      assert u in Holders(s, k);
    }
  }

  /**
   * Free ids and held ids of a pool are together exactly its ids, none twice, and no box has two holders.
   * Hence at most as many goroutines hold boxes as the pool has, and a goroutine that returns its box always
   * finds room in the channel.
   */
  lemma Conservation(cfg: Config, s: State, k: Kind)
    requires BoxInv(cfg, s) && s.Up?
    ensures NoDups(Free(s, k))
    ensures Elements(Free(s, k)) !! HeldIds(s, k)
    ensures Elements(Free(s, k)) + HeldIds(s, k) == Elements(BoxIds(cfg, k))
    ensures forall u, v :: u in Holders(s, k) && v in Holders(s, k) && PcOf(s, u).box == PcOf(s, v).box ==> u == v
    ensures |Free(s, k)| + |Holders(s, k)| == |BoxIds(cfg, k)|
    ensures Holders(s, k) != {} ==> |Free(s, k)| < |BoxIds(cfg, k)|
  {
    hide BoxIds;
    assert FreeOk(cfg, s, k);
    HeldAreTheRest(cfg, s, k);
    ElementsSize(Free(s, k));
    AllIdsDiffer(cfg, k);
    ElementsSize(BoxIds(cfg, k));
    HoldersSize(cfg, s, k);
    forall b | b in Elements(Free(s, k)) ensures b in Elements(BoxIds(cfg, k)) {}
    PartSizes(Elements(Free(s, k)), HeldIds(s, k), Elements(BoxIds(cfg, k)));
  }

  lemma PartSizes(part: set<int>, rest: set<int>, all: set<int>)
    requires part <= all && rest == all - part
    ensures part !! rest && part + rest == all && |part| + |rest| == |all|
  {
  }

  lemma AllIdsDiffer(cfg: Config, k: Kind)
    ensures NoDups(BoxIds(cfg, k))
  {
  }

  lemma HoldersSize(cfg: Config, s: State, k: Kind)
    requires BoxInv(cfg, s) && s.Up?
    ensures |Holders(s, k)| == |HeldIds(s, k)|
  {
    BijectionSize(Holders(s, k), HeldIds(s, k), BoxHeldBy(s));
  }
}
