/** What a grade says about its test cases: all-or-nothing group scores, the status, and the averages. */
module Scoring {
  import opened Floats
  import opened GoInt
  import opened Models
  import opened Metadata
  import opened Sandbox
  import opened Sequences
  import opened GradeSpec

  // ---- when a test case passes --------------------------------------------------------------------

  /** A case passes exactly when its run is classified RUN_PASSED and its compare has nothing to say. */
  lemma CasePassesIff(env: Env, job: JobSpec, tc: TestCase)
    requires job.compare.Some?
    ensures var r := GradeCase(env, job, tc);
            (r.Some? && r.value.status == RUN_PASSED) <==>
            var o := RunTestCase(env, ProgramOf(job, tc));
            && o.Ran? && o.meta.status == RUN_PASSED
            && CompareOutput(env, job.compare.value, o.output, tc.output) == Compared("")
  {
    hide RunTestCase;
    hide CompareOutput;
    hide ProgramOf;
  }

  // ---- scores -------------------------------------------------------------------------------------

  predicate Passes(env: Env, job: JobSpec, tc: TestCase) {
    var r := GradeCase(env, job, tc);
    r.Some? && r.value.status == RUN_PASSED
  }

  ghost predicate AllPass(env: Env, job: JobSpec, tcs: seq<TestCase>) {
    forall i :: 0 <= i < |tcs| ==> Passes(env, job, tcs[i])
  }

  /** The exact sum of the scores of the groups without a failing case; a group without cases has none. */
  ghost function Earned(env: Env, job: JobSpec, gs: seq<TestCaseGroup>): int {
    if gs == [] then 0
    else
      var g := gs[|gs| - 1];
      Earned(env, job, gs[..|gs| - 1]) + if AllPass(env, job, g.testCases) then g.score else 0
  }

  lemma {:induction false} TotalFails(ts: seq<Tally>)
    ensures Total(ts).failed <==> exists i :: 0 <= i < |ts| && ts[i].failed
  {
    if ts != [] {
      TotalFails(ts[..|ts| - 1]);
    }
  }

  lemma GroupFailsIff(env: Env, job: JobSpec, g: TestCaseGroup)
    requires GradeGroup(env, job, g).Some?
    ensures GradeGroup(env, job, g).value.tally.failed <==> !AllPass(env, job, g.testCases)
    ensures GradeGroup(env, job, g).value.tally.score ==
            (if AllPass(env, job, g.testCases) then g.score else 0) == GradeGroup(env, job, g).value.result.score
  {
    hide GradeCase;
    var f := CaseGrader(env, job);
    var rs := Collect(f, g.testCases).value;
    var ts := Mapped(OfCase, rs);
    TotalFails(ts);
    forall i | 0 <= i < |rs| ensures ts[i].failed <==> !Passes(env, job, g.testCases[i]) {
      assert f(g.testCases[i]) == Some(rs[i]);
    }
  }

  lemma {:induction false} ScoreOfGroups(env: Env, job: JobSpec, gs: seq<TestCaseGroup>)
    requires Collect(GroupGrader(env, job), gs).Some?
    ensures var total := Total(Mapped(TallyOf, Collect(GroupGrader(env, job), gs).value));
            && total.score == Wrap32(Earned(env, job, gs))
            && (total.failed <==> exists g :: 0 <= g < |gs| && !AllPass(env, job, gs[g].testCases))
  {
    hide GradeGroup;
    hide AllPass;
    hide Wrap32;
    var h := GroupGrader(env, job);
    if gs == [] {
      WrapZero();
    } else {
      var last := |gs| - 1;
      LastGroup(env, job, gs);
      ScoreOfGroups(env, job, gs[..last]);
      var os := Collect(h, gs).value;
      GroupFailsIff(env, job, gs[last]);
      WrapOfWrap(Earned(env, job, gs[..last]), os[last].tally.score);
    }
  }

  lemma WrapZero()
    ensures Wrap32(0) == 0
  {
  }

  /** The score counts exactly the groups without a failing case, and RUN_PASSED means that no case failed. */
  lemma GradeIsAllOrNothing(env: Env, job: JobSpec)
    requires job.compare.Some? && Grade(env, job).Some?
    ensures var r := Grade(env, job).value;
            && r.score == Wrap32(Earned(env, job, job.groups))
            && (r.status == RUN_PASSED || r.status == RUN_FAILED)
            && (r.status == RUN_PASSED <==>
                forall g :: 0 <= g < |job.groups| ==> AllPass(env, job, job.groups[g].testCases))
  {
    hide AllPass;
    hide Earned;
    ScoreOfGroups(env, job, job.groups);
  }

  // ---- average memory -----------------------------------------------------------------------------

  function Memories(rs: seq<TestCaseResult<Float32>>): seq<int> {
    Mapped((r: TestCaseResult<Float32>) => r.memory as int, rs)
  }

  function Sum(s: seq<int>): int {
    if s == [] then 0 else Sum(s[..|s| - 1]) + s[|s| - 1]
  }

  lemma {:induction false} SumOfConcat(a: seq<int>, b: seq<int>)
    ensures Sum(a + b) == Sum(a) + Sum(b)
  {
    if b == [] {
      assert a + b == a;
    } else {
      assert (a + b)[..|a + b| - 1] == a + b[..|b| - 1];
      SumOfConcat(a, b[..|b| - 1]);
    }
  }

  lemma {:induction false} SumBetween(s: seq<int>, lo: int, hi: int)
    requires forall i :: 0 <= i < |s| ==> lo <= s[i] <= hi
    ensures lo * |s| <= Sum(s) <= hi * |s|
  {
    if s != [] {
      SumBetween(s[..|s| - 1], lo, hi);
      assert lo * |s| == lo * (|s| - 1) + lo && hi * |s| == hi * (|s| - 1) + hi;
    }
  }

  lemma {:induction false} MemoryTotal(rs: seq<TestCaseResult<Float32>>)
    ensures Total(Mapped(OfCase, rs)).memory == Wrap32(Sum(Memories(rs)))
  {
    hide Wrap32;
    if rs == [] {
      WrapZero();
    } else {
      var last := |rs| - 1;
      MemoryTotal(rs[..last]);
      assert Mapped(OfCase, rs)[..last] == Mapped(OfCase, rs[..last]);
      assert Memories(rs)[..last] == Memories(rs[..last]);
      WrapOfWrap(Sum(Memories(rs[..last])), rs[last].memory);
    }
  }

  /** The reported memories of all cases of all groups, in the order in which they are listed. */
  function AllMemories(groups: seq<TestCaseGroupResult<Float32>>): seq<int> {
    if groups == [] then []
    else AllMemories(groups[..|groups| - 1]) + Memories(groups[|groups| - 1].results)
  }

  function CaseCount(gs: seq<TestCaseGroup>): nat {
    if gs == [] then 0 else CaseCount(gs[..|gs| - 1]) + |gs[|gs| - 1].testCases|
  }

  lemma {:induction false} JobTotals(env: Env, job: JobSpec, gs: seq<TestCaseGroup>)
    requires Collect(GroupGrader(env, job), gs).Some?
    ensures var os := Collect(GroupGrader(env, job), gs).value;
            var total := Total(Mapped(TallyOf, os));
            && total.memory == Wrap32(Sum(AllMemories(Mapped(ResultOf, os))))
            && total.count == Wrap32(CaseCount(gs))
            && |AllMemories(Mapped(ResultOf, os))| == CaseCount(gs)
  {
    hide Wrap32;
    hide Add32;
    hide GradeGroup;
    hide Memories;
    hide Sum;
    var h := GroupGrader(env, job);
    if gs == [] {
      WrapZero();
      SumZero();
    } else {
      var last := |gs| - 1;
      LastGroup(env, job, gs);
      hide Collect;
      hide Total;
      var os := Collect(h, gs).value;
      JobTotals(env, job, gs[..last]);
      GroupTotals(env, job, gs[last]);
      var ms := Memories(os[last].result.results);
      var groups := Mapped(ResultOf, os);
      assert groups[..last] == Mapped(ResultOf, os[..last]);
      SumOfConcat(AllMemories(groups[..last]), ms);
      AddOfWraps(Sum(AllMemories(groups[..last])), Sum(ms));
      AddOfWraps(CaseCount(gs[..last]), |ms|);
    }
  }

  /** The totals over groups, one group at a time. */
  lemma LastGroup(env: Env, job: JobSpec, gs: seq<TestCaseGroup>)
    requires gs != [] && Collect(GroupGrader(env, job), gs).Some?
    ensures var (h, last) := (GroupGrader(env, job), |gs| - 1);
            var os := Collect(h, gs).value;
            && Collect(h, gs[..last]) == Some(os[..last]) && GradeGroup(env, job, gs[last]) == Some(os[last])
            && Total(Mapped(TallyOf, os)) == Plus(Total(Mapped(TallyOf, os[..last])), os[last].tally)
  {
    hide GradeGroup;
    hide Plus;
    var h, last := GroupGrader(env, job), |gs| - 1;
    var os := Collect(h, gs).value;
    assert os[..last] == Collect(h, gs[..last]).value;
    assert Mapped(TallyOf, os)[..last] == Mapped(TallyOf, os[..last]);
    assert h(gs[last]) == Some(os[last]);
  }

  lemma SumZero()
    ensures Sum([]) == 0
  {
  }

  lemma GroupTotals(env: Env, job: JobSpec, g: TestCaseGroup)
    requires GradeGroup(env, job, g).Some?
    ensures var o := GradeGroup(env, job, g).value;
            && o.tally.memory == Wrap32(Sum(Memories(o.result.results)))
            && o.tally.count == Wrap32(|Memories(o.result.results)|)
            && |Memories(o.result.results)| == |g.testCases|
  {
    hide GradeCase;
    MemoryTotal(Collect(CaseGrader(env, job), g.testCases).value);
  }

  /** The average memory is the int32 total of all cases' memories by their number, truncated toward zero. */
  lemma AverageMemoryIsTruncated(env: Env, job: JobSpec)
    requires job.compare.Some? && Grade(env, job).Some? && CaseCount(job.groups) < 0x8000_0000
    ensures var r, n := Grade(env, job).value, CaseCount(job.groups);
            && r.groups.Some? && |AllMemories(r.groups.value)| == n
            && (n == 0 ==> r.avgMemory == 0)
            && (n > 0 ==>
                  var total, q: int := Wrap32(Sum(AllMemories(r.groups.value))), r.avgMemory;
                  if total >= 0 then q * n <= total < q * n + n else q * n - n < total <= q * n)
  {
    hide AllMemories, CaseCount, Sum, GradeGroup, Wrap32, TruncDiv;
    JobTotals(env, job, job.groups);
    var n := CaseCount(job.groups);
    if n > 0 {
      var total := Total(Mapped(TallyOf, Collect(GroupGrader(env, job), job.groups).value));
      hide Total, Collect;
      TruncatedQuotient(total.memory, n);
    }
  }

  lemma QuotientOfSize(size: nat, n: nat)
    requires n > 0
    ensures var q := TruncDiv(size, n); 0 <= q <= size && q * n <= size < q * n + n
  {
    TruncDivFits(size, n);
    var q := TruncDiv(size, n);
    hide TruncDiv;
    Multiples(size, n);
    MultipleBelow(q - size, n);
    MultipleBelow(-q, n);
    assert (q - size) * n == q * n - size * n && (-q) * n == -(q * n);
  }

  lemma TruncatedQuotient(total: int32, n: nat)
    requires 0 < n < 0x8000_0000
    ensures var q: int := Wrap32(TruncDiv(total, n));
            if total >= 0 then q * n <= total < q * n + n else q * n - n < total <= q * n
  {
    hide Wrap32;
    var t: int := total;
    var size: nat := if t < 0 then -t else t;
    assert TruncDiv(total, n) == if t < 0 then -TruncDiv(size, n) else TruncDiv(size, n);
    QuotientOfSize(size, n);
    hide TruncDiv;
    var q := TruncDiv(size, n);
    assert (-q) * n == -(q * n);
  }

  /**
   * With non-negative memories whose total fits an int32, the average is the floor of the exact mean over all
   * requested cases, so it lies between the smallest and the largest reported value.
   */
  lemma AverageMemoryIsTheMean(env: Env, job: JobSpec, lo: int, hi: int)
    requires job.compare.Some? && Grade(env, job).Some? && Grade(env, job).value.groups.Some?
    requires 0 < CaseCount(job.groups) < 0x8000_0000
    requires var ms := AllMemories(Grade(env, job).value.groups.value);
             (forall i :: 0 <= i < |ms| ==> 0 <= lo <= ms[i] <= hi) && Sum(ms) < 0x8000_0000
    ensures var ms := AllMemories(Grade(env, job).value.groups.value);
            && |ms| == CaseCount(job.groups)
            && Grade(env, job).value.avgMemory == Sum(ms) / |ms|
            && lo <= Grade(env, job).value.avgMemory <= hi
  {
    hide AllMemories, CaseCount, Sum, Grade, Wrap32;
    var r := Grade(env, job).value;
    var ms := AllMemories(r.groups.value);
    AverageMemoryIsTruncated(env, job);
    SumBetween(ms, lo, hi);
    NonNegative(ms);
    FloorBetween(Sum(ms), |ms|, lo, hi);
    assert Wrap32(Sum(ms)) == Sum(ms);
    QuotientIsUnique(Sum(ms), |ms|, r.avgMemory);
  }

  lemma Multiples(sum: nat, n: nat)
    requires n > 0
    ensures 0 * n <= sum <= sum * n
  {
    assert sum * n == sum * (n - 1) + sum;
    Product(sum, n - 1);
  }

  lemma Product(a: nat, b: nat)
    ensures a * b >= 0
  {
  }

  lemma {:induction false} NonNegative(ms: seq<int>)
    requires forall i :: 0 <= i < |ms| ==> 0 <= ms[i]
    ensures 0 <= Sum(ms)
  {
    if ms != [] { NonNegative(ms[..|ms| - 1]); }
  }

  lemma FloorBetween(total: int, n: int, lo: int, hi: int)
    requires n > 0 && lo * n <= total <= hi * n
    ensures lo <= total / n <= hi
  {
    var q := total / n;
    assert q * n <= total < q * n + n;
    MultipleBelow(lo - q, n);
    MultipleBelow(q - hi, n);
    assert (lo - q) * n == lo * n - q * n && (q - hi) * n == q * n - hi * n;
  }

  // ---- the average wall time ----------------------------------------------------------------------

  function Times(rs: seq<TestCaseResult<Float32>>): seq<Time> {
    Mapped((r: TestCaseResult<Float32>) => TimeOf(r.wallTime), rs)
  }

  /** The reported wall times of all cases of all groups, in the order in which they are listed. */
  function AllTimes(groups: seq<TestCaseGroupResult<Float32>>): seq<Time> {
    if groups == [] then [] else AllTimes(groups[..|groups| - 1]) + Times(groups[|groups| - 1].results)
  }

  function SumOfTimes(ts: seq<Time>): Time {
    if ts == [] then Exact(0) else AddTime(SumOfTimes(ts[..|ts| - 1]), ts[|ts| - 1])
  }

  lemma {:induction false} SumOfTimesOfConcat(a: seq<Time>, b: seq<Time>)
    ensures SumOfTimes(a + b) == AddTime(SumOfTimes(a), SumOfTimes(b))
  {
    if b == [] {
      assert a + b == a;
      AddTimeIsAssociative(SumOfTimes(a), Exact(0), Exact(0));
    } else {
      var n := |b| - 1;
      assert (a + b)[..|a + b| - 1] == a + b[..n];
      SumOfTimesOfConcat(a, b[..n]);
      AddTimeIsAssociative(SumOfTimes(a), SumOfTimes(b[..n]), b[n]);
    }
  }

  lemma {:induction false} CasesTime(rs: seq<TestCaseResult<Float32>>)
    ensures Total(Mapped(OfCase, rs)).wallTime == SumOfTimes(Times(rs))
  {
    hide Add32, TimeOf, AddTime;
    if rs != [] {
      var last := |rs| - 1;
      CasesTime(rs[..last]);
      assert Mapped(OfCase, rs)[..last] == Mapped(OfCase, rs[..last]);
      assert Times(rs)[..last] == Times(rs[..last]);
    }
  }

  lemma GroupTime(env: Env, job: JobSpec, g: TestCaseGroup)
    requires GradeGroup(env, job, g).Some?
    ensures var o := GradeGroup(env, job, g).value; o.tally.wallTime == SumOfTimes(Times(o.result.results))
  {
    hide GradeCase, Wrap32;
    CasesTime(Collect(CaseGrader(env, job), g.testCases).value);
  }

  lemma {:induction false} JobTime(env: Env, job: JobSpec, gs: seq<TestCaseGroup>)
    requires Collect(GroupGrader(env, job), gs).Some?
    ensures var os := Collect(GroupGrader(env, job), gs).value;
            Total(Mapped(TallyOf, os)).wallTime == SumOfTimes(AllTimes(Mapped(ResultOf, os)))
  {
    hide Wrap32, Add32, GradeGroup, Times, AddTime;
    if gs != [] {
      var last := |gs| - 1;
      LastGroup(env, job, gs);
      GroupTime(env, job, gs[last]);
      JobTime(env, job, gs[..last]);
      var os := Collect(GroupGrader(env, job), gs).value;
      hide Collect, Total;
      var groups := Mapped(ResultOf, os);
      assert groups[..last] == Mapped(ResultOf, os[..last]);
      SumOfTimesOfConcat(AllTimes(groups[..last]), Times(groups[last].results));
    }
  }

  /** The average wall time is the sum over all cases that are listed, by the number of cases that were requested. */
  lemma AverageTimeIsTheMean(env: Env, job: JobSpec)
    requires job.compare.Some? && Grade(env, job).Some? && CaseCount(job.groups) < 0x8000_0000
    ensures var r := Grade(env, job).value;
            && r.groups.Some?
            && (CaseCount(job.groups) == 0 ==> r.avgWallTime == Average(Exact(0), 1))
            && (CaseCount(job.groups) > 0 ==>
                  && r.avgWallTime.total == SumOfTimes(AllTimes(r.groups.value))
                  && r.avgWallTime.count == CaseCount(job.groups))
  {
    hide GradeGroup, AllTimes, AllMemories, Sum, CaseCount, Wrap32;
    JobTotals(env, job, job.groups);
    JobTime(env, job, job.groups);
    hide Collect, Total;
  }

  // ---- when that is a number ----------------------------------------------------------------------

  ghost predicate AllNumbers(rs: seq<TestCaseResult<Float32>>) {
    forall i :: 0 <= i < |rs| ==> rs[i].wallTime.Number?
  }

  /** Every case of every group reports a wall time that is a number. */
  ghost predicate AllTimed(groups: seq<TestCaseGroupResult<Float32>>) {
    forall g :: 0 <= g < |groups| ==> AllNumbers(groups[g].results)
  }

  /** Every number as that many times 10^-53. */
  function AllUnits(groups: seq<TestCaseGroupResult<Float32>>): seq<int>
    requires AllTimed(groups)
  {
    if groups == [] then []
    else
      var last := groups[|groups| - 1].results;
      AllUnits(groups[..|groups| - 1]) + seq(|last|, i requires 0 <= i < |last| => Units(last[i].wallTime))
  }

  predicate AllExact(ts: seq<Time>) {
    forall i :: 0 <= i < |ts| ==> ts[i].Exact?
  }

  lemma {:induction false} SumIsExactIff(ts: seq<Time>)
    ensures SumOfTimes(ts).Exact? <==> AllExact(ts)
  {
    if ts != [] { SumIsExactIff(ts[..|ts| - 1]); }
  }

  /** A time that is not a number makes the sum none either, and so do infinities of both signs. */
  lemma {:induction false} SumIsUndefinedIff(ts: seq<Time>)
    ensures SumOfTimes(ts).Undefined? <==> Undefined in ts || (Unbounded(true) in ts && Unbounded(false) in ts)
    ensures forall neg :: SumOfTimes(ts) == Unbounded(neg) ==> Unbounded(neg) in ts
    ensures SumOfTimes(ts).Exact? ==> Undefined !in ts && Unbounded(true) !in ts && Unbounded(false) !in ts
  {
    if ts != [] {
      var n := |ts| - 1;
      SumIsUndefinedIff(ts[..n]);
      assert forall t :: t in ts <==> t in ts[..n] || t == ts[n];
    }
  }

  lemma AllExactConcat(a: seq<Time>, b: seq<Time>)
    ensures AllExact(a + b) <==> AllExact(a) && AllExact(b)
  {
    if AllExact(a + b) {
      forall i | 0 <= i < |a| ensures a[i].Exact? { assert a[i] == (a + b)[i]; }
      forall i | 0 <= i < |b| ensures b[i].Exact? { assert b[i] == (a + b)[|a| + i]; }
    }
  }

  lemma {:induction false} ExactSum(ts: seq<Time>, units: seq<int>)
    requires |units| == |ts| && forall i :: 0 <= i < |ts| ==> ts[i] == Exact(units[i])
    ensures SumOfTimes(ts) == Exact(Sum(units))
  {
    if ts != [] { ExactSum(ts[..|ts| - 1], units[..|ts| - 1]); }
  }

  lemma TimesOfGroup(rs: seq<TestCaseResult<Float32>>)
    ensures |Times(rs)| == |rs| && (AllNumbers(rs) <==> AllExact(Times(rs)))
    ensures AllNumbers(rs) ==> forall i :: 0 <= i < |rs| ==> Times(rs)[i] == Exact(Units(rs[i].wallTime))
  {
    hide Units, TimeOf;
    forall i | 0 <= i < |rs|
      ensures Times(rs)[i].Exact? <==> rs[i].wallTime.Number?
      ensures rs[i].wallTime.Number? ==> Times(rs)[i] == Exact(Units(rs[i].wallTime))
    {
      TimeIsExactIff(rs[i].wallTime);
    }
  }

  lemma NoTimes()
    ensures AllExact([]) && SumOfTimes([]) == Exact(0)
  {
  }

  lemma AllTimedOneMore(groups: seq<TestCaseGroupResult<Float32>>)
    requires groups != []
    ensures var n := |groups| - 1; AllTimed(groups) <==> AllTimed(groups[..n]) && AllNumbers(groups[n].results)
  {
    hide AllNumbers;
    assert forall g :: 0 <= g < |groups| - 1 ==> groups[..|groups| - 1][g] == groups[g];
  }

  lemma {:induction false} TimesOfNumbers(groups: seq<TestCaseGroupResult<Float32>>)
    ensures AllTimed(groups) <==> AllExact(AllTimes(groups))
    ensures AllTimed(groups) ==>
              && |AllUnits(groups)| == |AllTimes(groups)|
              && forall i :: 0 <= i < |AllTimes(groups)| ==> AllTimes(groups)[i] == Exact(AllUnits(groups)[i])
  {
    hide Units, TimeOf, AllNumbers, AllExact, Times;
    if groups == [] {
      NoTimes();
    } else {
      var n := |groups| - 1;
      TimesOfNumbers(groups[..n]);
      TimesOfGroup(groups[n].results);
      AllTimedOneMore(groups);
      AllExactConcat(AllTimes(groups[..n]), Times(groups[n].results));
    }
  }

  lemma TimeIsExactIff(f: Float32)
    ensures TimeOf(f).Exact? <==> f.Number?
    ensures f.Number? ==> TimeOf(f) == Exact(Units(f))
  {
    if f.Number? { TimeOfNumber(f); }
  }

  /**
   * The average wall time is a number if and only if every case's is, and then the exact mean of them; one "nan" or
   * "inf" is enough to spoil it.
   */
  lemma AverageTimeIsANumberIff(env: Env, job: JobSpec)
    requires job.compare.Some? && Grade(env, job).Some?
    requires 0 < CaseCount(job.groups) < 0x8000_0000
    ensures var r := Grade(env, job).value;
            && r.groups.Some?
            && (r.avgWallTime.total.Exact? <==> AllTimed(r.groups.value))
            && (AllTimed(r.groups.value) ==>
                  r.avgWallTime == Average(Exact(Sum(AllUnits(r.groups.value))), CaseCount(job.groups)))
  {
    hide Grade, AllTimed, CaseCount, AllTimes, AllUnits;
    AverageTimeIsTheMean(env, job);
    var groups := Grade(env, job).value.groups.value;
    TimesOfNumbers(groups);
    SumIsExactIff(AllTimes(groups));
    if AllTimed(groups) { ExactSum(AllTimes(groups), AllUnits(groups)); }
  }

  /** A case that passes its run with a wall time of "nan" keeps it in its result. */
  lemma NanReachesTheResult(env: Env, job: JobSpec, tc: TestCase, box: Box)
    requires TakesNan(env.parseFloat) && !job.runner.needCompile && WriteAll(env, FRESH, job.files) == Some(box)
    requires var e := env.run(box, ProgramOf(job, tc)); e.exit.Succeeded? && e.box.meta == Some(NAN_REPORT)
    ensures GradeCase(env, job, tc).Some? ==> GradeCase(env, job, tc).value.wallTime == NaN
  {
    hide WriteAll, CompareOutput;
    NanIsParsed(env.parseFloat);
    hide Parse;
  }
}
