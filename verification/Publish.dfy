/** The grade result that a worker publishes: full, stripped of detail, or only the verdict (cmd/worker/worker.go). */
module Publish {
  import opened Floats
  import opened GoInt
  import opened Models
  import opened Text
  import opened Json
  import opened Sequences

  type CaseResult = TestCaseResult<Float32>
  type GroupResult = TestCaseGroupResult<Float32>
  type Result = GradeResult<Float32, Float32>

  const MAX_GRADE_RESULT_BYTES := 8 * 1024 * 1024

  // ---- specification ------------------------------------------------------------------------------

  function Blank(r: CaseResult): CaseResult {
    r.(output := "", input := "", message := "")
  }

  function BlankGroup(g: GroupResult): GroupResult {
    g.(results := Mapped(Blank, g.results))
  }

  function Strip(r: Result): Result {
    match r.groups
    case None => r
    case Some(groups) => r.(groups := Some(Mapped(BlankGroup, groups)))
  }

  function Verdict(r: Result): Result {
    r.(groups := None)
  }

  predicate Fits(text: Option<string>) {
    text.Some? && |text.value| <= MAX_GRADE_RESULT_BYTES
  }

  /** The first of the three forms that fits; empty where even the verdict cannot be encoded. */
  function Bounded(r: Result): string {
    if Fits(Marshal(r)) then Marshal(r).value
    else if Fits(Marshal(Strip(r))) then Marshal(Strip(r)).value
    else if Marshal(Verdict(r)).Some? then Marshal(Verdict(r)).value
    else ""
  }

  // ---- stripping loses nothing but the detail, and never makes the text longer --------------------

  predicate NoLonger(a: Option<string>, b: Option<string>) {
    (a.Some? <==> b.Some?) && (a.Some? ==> |a.value| <= |b.value|)
  }

  lemma BlankIsShorter(r: CaseResult)
    ensures NoLonger(CaseText(Blank(r)), CaseText(r))
  {
    hide QuotedBody, FloatText, Itoa;
    assert QuotedBody("") == "" by { QuoteIsLegal(""); }
  }

  lemma {:induction false} CommaSeparatedShrinks(a: seq<string>, b: seq<string>)
    requires |a| == |b| && forall i :: 0 <= i < |a| ==> |a[i]| <= |b[i]|
    ensures |CommaSeparated(a)| <= |CommaSeparated(b)|
  {
    if |a| > 1 {
      assert |a[0]| <= |b[0]|;
      CommaSeparatedShrinks(a[1..], b[1..]);
    } else if |a| == 1 {
      assert |a[0]| <= |b[0]|;
    }
  }

  lemma BlankGroupIsShorter(g: GroupResult)
    ensures NoLonger(GroupText(BlankGroup(g)), GroupText(g))
  {
    hide CaseText, QuotedBody, Itoa;
    var a, b := CaseTexts(BlankGroup(g).results), CaseTexts(g.results);
    forall i | 0 <= i < |g.results| ensures NoLonger(CaseText(BlankGroup(g).results[i]), CaseText(g.results[i])) {
      BlankIsShorter(g.results[i]);
    }
    assert a.Some? <==> b.Some?;
    if a.Some? {
      CommaSeparatedShrinks(a.value, b.value);
    }
  }

  predicate SameButDetail(a: CaseResult, b: CaseResult) {
    a.id == b.id && a.status == b.status && a.wallTime == b.wallTime && a.memory == b.memory
  }

  /** Stripping never grows the text and keeps everything but the detail of the cases. */
  lemma StripNeverGrows(r: Result)
    ensures NoLonger(Marshal(Strip(r)), Marshal(r))
    ensures Verdict(Strip(r)) == Verdict(r) && (Strip(r).groups.Some? <==> r.groups.Some?)
    ensures r.groups.Some? ==>
              var (a, b) := (Strip(r).groups.value, r.groups.value);
              && |a| == |b|
              && forall g :: 0 <= g < |a| ==>
                   && a[g].id == b[g].id && a[g].score == b[g].score && |a[g].results| == |b[g].results|
                   && forall i :: 0 <= i < |a[g].results| ==> SameButDetail(a[g].results[i], b[g].results[i])
  {
    hide GroupText, QuotedBody, Itoa, FloatText, StatusText;
    match r.groups
    case None =>
    case Some(groups) =>
      var stripped := Mapped(BlankGroup, groups);
      var a, b := GroupTexts(stripped), GroupTexts(groups);
      forall i | 0 <= i < |groups| ensures NoLonger(GroupText(stripped[i]), GroupText(groups[i])) {
        BlankGroupIsShorter(groups[i]);
      }
      assert a.Some? <==> b.Some?;
      if a.Some? {
        CommaSeparatedShrinks(a.value, b.value);
      }
  }

  // ---- every published text can be read back to the verdict ---------------------------------------

  /** t before and after its last c. */
  function SplitLast(t: string, c: char): (string, string) {
    if t == "" then ("", "")
    else
      var n := |t| - 1;
      if t[n] == c then (t[..n], "")
      else (SplitLast(t[..n], c).0, SplitLast(t[..n], c).1 + [t[n]])
  }

  function UpToFirst(t: string, c: char): string {
    if t == "" || t[0] == c then "" else [t[0]] + UpToFirst(t[1..], c)
  }

  lemma {:induction false} SplitLastAt(a: string, c: char, b: string)
    requires c !in b
    ensures SplitLast(a + [c] + b, c) == (a, b)
  {
    var t := a + [c] + b;
    if b == "" {
      assert t[..|t| - 1] == a;
    } else {
      var k := |b| - 1;
      assert t[..|t| - 1] == a + [c] + b[..k];
      SplitLastAt(a, c, b[..k]);
      assert b[..k] + [b[k]] == b;
    }
  }

  lemma {:induction false} UpToFirstOf(a: string, c: char, b: string)
    requires c !in a
    ensures UpToFirst(a + [c] + b, c) == a
  {
    var t := a + [c] + b;
    if a != "" {
      assert t[1..] == a[1..] + [c] + b;
      UpToFirstOf(a[1..], c, b);
    }
  }

  datatype VerdictText = VerdictText(status: string, avgWallTime: string, avgMemory: Option<int>, score: Option<int>)

  /** Reads the verdict off a published text without looking at the groups between. */
  function ReadVerdict(t: string): VerdictText {
    var score := SplitLast(t, ':');
    var memory := SplitLast(SplitLast(score.0, ',').0, ':');
    var avg := SplitLast(SplitLast(memory.0, ',').0, ':');
    VerdictText(UpToFirst(if |t| >= 11 then t[11..] else "", '"'), avg.1, Atoi(memory.1),
                Atoi(if score.1 == "" then "" else score.1[..|score.1| - 1]))
  }

  predicate NoSeparator(t: string) { ':' !in t && ',' !in t }

  lemma LastField(rest: string, key: string, value: string)
    requires NoSeparator(key) && NoSeparator(value)
    ensures SplitLast(rest + Field(key, value), ':') == (rest + "," + key, value)
    ensures SplitLast(rest + "," + key, ',') == (rest, key)
  {
    assert rest + Field(key, value) == rest + "," + key + ":" + value;
    SplitLastAt(rest + "," + key, ':', value);
    SplitLastAt(rest, ',', key);
  }

  /** The last three fields of an object, split off one by one from the end. */
  lemma LastThreeFields(front: string, k1: string, v1: string, k2: string, v2: string, k3: string, v3: string)
    requires NoSeparator(k1) && NoSeparator(v1) && NoSeparator(k2) && NoSeparator(v2)
    requires NoSeparator(k3) && NoSeparator(v3)
    ensures var c := SplitLast(front + (Field(k1, v1) + Field(k2, v2) + Field(k3, v3)), ':');
            var d := SplitLast(SplitLast(c.0, ',').0, ':');
            c.1 == v3 && d.1 == v2 && SplitLast(SplitLast(d.0, ',').0, ':').1 == v1
  {
    hide SplitLast, Field;
    var a := front + Field(k1, v1);
    var b := a + Field(k2, v2);
    assert front + (Field(k1, v1) + Field(k2, v2) + Field(k3, v3)) == b + Field(k3, v3);
    LastField(b, k3, v3);
    LastField(a, k2, v2);
    LastField(front, k1, v1);
  }

  lemma ReadTail(r: Result, front: string, avg: string)
    requires NoSeparator(avg)
    ensures var v := ReadVerdict(front + Tail(r, avg));
            v.avgWallTime == avg && v.avgMemory == Some(r.avgMemory as int) && v.score == Some(r.score as int)
  {
    hide SplitLast, Atoi, Itoa, UpToFirst, Field;
    var score := Itoa(r.score) + "}";
    ItoaIsNumeric(r.avgMemory);
    ItoaIsNumeric(r.score);
    LastThreeFields(front, AVG_WALL_TIME, avg, AVG_MEMORY, Itoa(r.avgMemory), SCORE, score);
    AtoiOfItoa(r.avgMemory);
    AtoiOfItoa(r.score);
    assert score[..|score| - 1] == Itoa(r.score);
  }

  lemma ItoaIsNumeric(n: int)
    ensures forall c :: c in Itoa(n) ==> Numeric(c)
  {
  }

  lemma ScientificIsNumeric(f: Float32)
    requires f.Number? && f.digits != ""
    ensures forall c :: c in Scientific(f) ==> Numeric(c)
  {
    hide Digits;
    var exp := f.point - 1;
    var e := if exp < 0 then "-" + Digits(-exp) else "+" + (if exp < 10 then "0" else "") + Digits(exp);
    assert forall c :: c in e ==> Numeric(c);
    var m := f.digits[..1] + (if |f.digits| > 1 then "." + f.digits[1..] else "");
    assert forall c :: c in m ==> Numeric(c);
    assert Scientific(f) == m + "e" + e;
  }

  lemma FloatIsNumeric(f: Float32)
    requires f.Number?
    ensures forall c :: c in FloatText(f).value ==> Numeric(c)
  {
    hide Scientific;
    if f.digits != "" { ScientificIsNumeric(f); }
  }

  lemma {:induction false} PlainIsUnchanged(s: string)
    requires forall c :: c in s ==> Plain(c)
    ensures QuotedBody(s) == s
  {
    if s != "" {
      assert s[0] in s;
      PlainIsUnchanged(s[1..]);
      assert [s[0]] + s[1..] == s;
    }
  }

  lemma StatusLetters(s: Status)
    ensures forall c :: c in StatusText(s) ==> 'A' <= c <= 'Z' || c == '_'
  {
  }

  lemma StatusIsPlain(s: Status)
    ensures '"' !in StatusText(s)
    ensures QuotedBody(StatusText(s)) == StatusText(s)
  {
    hide QuotedBody, StatusText;
    StatusLetters(s);
    PlainIsUnchanged(StatusText(s));
  }

  lemma ReadHead(r: Result, rest: string)
    ensures ReadVerdict(Head(r) + rest).status == StatusText(r.status)
  {
    hide SplitLast, Atoi, StatusText, QuotedBody;
    StatusIsPlain(r.status);
    var t := Head(r) + rest;
    var more := ",\"test_case_group_results\":" + rest;
    assert t[11..] == StatusText(r.status) + ['"'] + more;
    UpToFirstOf(StatusText(r.status), '"', more);
  }

  /** What Bounded returns is one object whose fields around the groups are those of r. */
  lemma BoundedParts(r: Result) returns (groups: string)
    requires r.avgWallTime.Number?
    ensures Bounded(r) == Head(r) + groups + Tail(r, FloatText(r.avgWallTime).value)
    ensures Some(groups) in {GroupsText(r.groups), GroupsText(Strip(r).groups), Some("null")}
  {
    hide GroupsText, FloatText, StatusText, QuotedBody, Itoa;
    FloatIsShort(r.avgWallTime);
    var full, stripped := GroupsText(r.groups), GroupsText(Strip(r).groups);
    NoGroupsText();
    groups := if Fits(Marshal(r)) then full.value else if Fits(Marshal(Strip(r))) then stripped.value else "null";
  }

  lemma NoGroupsText()
    ensures GroupsText(None) == Some("null")
  {
  }

  lemma VerdictIsShort(r: Result)
    requires r.avgWallTime.Number?
    ensures |Head(r)| + |Tail(r, FloatText(r.avgWallTime).value)| <= 150
    ensures Marshal(Verdict(r)).Some? && |Marshal(Verdict(r)).value| <= 154
  {
    hide FloatText, StatusText, QuotedBody, Itoa;
    FloatIsShort(r.avgWallTime);
    StatusIsPlain(r.status);
    IntIsShort(r.avgMemory);
    IntIsShort(r.score);
  }

  /** At most 8 MiB, and never without the verdict unless the average itself has no JSON form. */
  lemma VerdictIsAlwaysPublished(r: Result)
    ensures |Bounded(r)| <= 8 * 1024 * 1024
    ensures Bounded(r) != "" <==> r.avgWallTime.Number?
    ensures r.avgWallTime.Number? ==>
              ReadVerdict(Bounded(r))
              == VerdictText(StatusText(r.status), FloatText(r.avgWallTime).value,
                             Some(r.avgMemory as int), Some(r.score as int))
  {
    hide GroupsText, FloatText, StatusText, QuotedBody, Itoa, Head, Tail, ReadVerdict, Bounded;
    FloatIsShort(r.avgWallTime);
    BoundedIsBounded(r);
    if r.avgWallTime.Number? {
      var avg := FloatText(r.avgWallTime).value;
      FloatIsNumeric(r.avgWallTime);
      var groups := BoundedParts(r);
      ReadHead(r, groups + Tail(r, avg));
      assert Head(r) + groups + Tail(r, avg) == Head(r) + (groups + Tail(r, avg));
      ReadTail(r, Head(r) + groups, avg);
    }
  }

  lemma BoundedIsBounded(r: Result)
    ensures |Bounded(r)| <= 8 * 1024 * 1024
    ensures Bounded(r) != "" <==> r.avgWallTime.Number?
  {
    hide GroupsText, FloatText, StatusText, QuotedBody, Itoa, Tail;
    FloatIsShort(r.avgWallTime);
    if r.avgWallTime.Number? {
      VerdictIsShort(r);
      var groups := BoundedParts(r);
    }
  }

  // ---- how many cases still travel with the verdict -----------------------------------------------

  function CasesWeight(rs: seq<CaseResult>): nat {
    if rs == [] then 0 else 136 + 6 * |rs[0].id| + CasesWeight(rs[1..])
  }

  function GroupsWeight(gs: seq<GroupResult>): nat {
    if gs == [] then 0 else 45 + 6 * |gs[0].id| + CasesWeight(gs[0].results) + GroupsWeight(gs[1..])
  }

  lemma StrippedCaseSize(r: CaseResult)
    requires r.wallTime.Number?
    ensures CaseText(Blank(r)).Some? && |CaseText(Blank(r)).value| <= 135 + 6 * |r.id|
  {
    hide QuotedBody, FloatText, Itoa, StatusText;
    QuoteIsLegal("");
    QuoteIsLegal(r.id);
    StatusIsPlain(r.status);
    FloatIsShort(r.wallTime);
    IntIsShort(r.memory);
  }

  predicate Encodable(g: GroupResult) {
    forall i :: 0 <= i < |g.results| ==> g.results[i].wallTime.Number?
  }

  lemma {:induction false} StrippedCasesSize(rs: seq<CaseResult>)
    requires forall i :: 0 <= i < |rs| ==> rs[i].wallTime.Number?
    ensures CaseTexts(Mapped(Blank, rs)).Some?
    ensures |CommaSeparated(CaseTexts(Mapped(Blank, rs)).value)| <= CasesWeight(rs)
  {
    hide CaseText, Blank;
    if rs != [] {
      StrippedCasesSize(rs[1..]);
      StrippedCaseSize(rs[0]);
      assert Mapped(Blank, rs)[1..] == Mapped(Blank, rs[1..]);
      CommaSeparatedOneMore(CaseText(Blank(rs[0])).value, CaseTexts(Mapped(Blank, rs[1..])).value);
    }
  }

  lemma CommaSeparatedOneMore(a: string, rest: seq<string>)
    ensures |CommaSeparated([a] + rest)| <= |a| + 1 + |CommaSeparated(rest)|
  {
    assert ([a] + rest)[1..] == rest;
  }

  lemma StrippedGroupSize(g: GroupResult)
    requires Encodable(g)
    ensures GroupText(BlankGroup(g)).Some?
    ensures |GroupText(BlankGroup(g)).value| <= 44 + 6 * |g.id| + CasesWeight(g.results)
  {
    hide CaseTexts, CommaSeparated, QuotedBody, Itoa, Blank, CasesWeight;
    StrippedCasesSize(g.results);
    QuoteIsLegal(g.id);
    IntIsShort(g.score);
  }

  lemma {:induction false} StrippedGroupsSize(gs: seq<GroupResult>)
    requires forall i :: 0 <= i < |gs| ==> Encodable(gs[i])
    ensures GroupTexts(Mapped(BlankGroup, gs)).Some?
    ensures |CommaSeparated(GroupTexts(Mapped(BlankGroup, gs)).value)| <= GroupsWeight(gs)
  {
    hide GroupText, BlankGroup, CasesWeight;
    if gs != [] {
      StrippedGroupsSize(gs[1..]);
      StrippedGroupSize(gs[0]);
      assert Mapped(BlankGroup, gs)[1..] == Mapped(BlankGroup, gs[1..]);
      CommaSeparatedOneMore(GroupText(BlankGroup(gs[0])).value, GroupTexts(Mapped(BlankGroup, gs[1..])).value);
    }
  }

  /**
   * The groups are dropped only for a huge number of cases, or an unprintable time: 136 bytes a case and 45 a group,
   * plus six times the length of the ids, is room enough, however long the outputs are.
   */
  lemma GroupsArePublished(r: Result)
    requires r.avgWallTime.Number? && r.groups.Some?
    requires forall i :: 0 <= i < |r.groups.value| ==> Encodable(r.groups.value[i])
    requires 152 + GroupsWeight(r.groups.value) <= 8 * 1024 * 1024
    ensures Some(Bounded(r)) in {Marshal(r), Marshal(Strip(r))}
  {
    hide GroupTexts, CommaSeparated, BlankGroup, GroupsWeight, Head, Tail, FloatText;
    VerdictIsShort(r);
    FloatIsShort(r.avgWallTime);
    assert Head(Strip(r)) == Head(r) && forall avg :: Tail(Strip(r), avg) == Tail(r, avg) by { SameFrame(r); }
    StrippedGroupsSize(r.groups.value);
    assert Fits(Marshal(Strip(r)));
  }

  lemma SameFrame(r: Result)
    ensures Head(Strip(r)) == Head(r) && forall avg :: Tail(Strip(r), avg) == Tail(r, avg)
  {
  }

  // ---- the method that publishes ------------------------------------------------------------------

  datatype GroupRef = GroupRef(id: string, score: int32, results: array<CaseResult>)

  function Arrays(gs: seq<GroupRef>): set<object> {
    set g | g in gs :: g.results
  }

  function GroupView(g: GroupRef): GroupResult
    reads g.results
  {
    TestCaseGroupResult(g.id, g.score, g.results[..])
  }

  function GroupViews(gs: seq<GroupRef>): (r: seq<GroupResult>)
    reads Arrays(gs)
    ensures |r| == |gs| && forall i :: 0 <= i < |gs| ==> r[i] == GroupView(gs[i])
  {
    if gs == [] then []
    else
      var n := |gs| - 1;
      GroupViews(gs[..n]) + [GroupView(gs[n])]
  }

  class GradeResultRef {
    var status: Status
    var groups: Option<seq<GroupRef>>
    var avgWallTime: Float32
    var avgMemory: int32
    var score: int32

    constructor (status: Status, groups: Option<seq<GroupRef>>, avgWallTime: Float32, avgMemory: int32, score: int32)
      ensures this.status == status && this.groups == groups
      ensures this.avgWallTime == avgWallTime && this.avgMemory == avgMemory && this.score == score
    {
      this.status, this.groups := status, groups;
      this.avgWallTime, this.avgMemory, this.score := avgWallTime, avgMemory, score;
    }

    function Groups(): seq<GroupRef>
      reads this
    {
      if groups.Some? then groups.value else []
    }

    function View(): Result
      reads this, Arrays(Groups())
    {
      GradeResult(status, if groups.None? then None else Some(GroupViews(groups.value)), avgWallTime, avgMemory, score)
    }
  }

  /** The inner loop: blanks the cases of one group where they lie. */
  method BlankInPlace(results: array<CaseResult>)
    modifies results
    ensures results[..] == Mapped(Blank, old(results[..]))
  {
    for ri := 0 to results.Length
      invariant forall i :: 0 <= i < ri ==> results[i] == Blank(old(results[i]))
      invariant forall i :: ri <= i < results.Length ==> results[i] == old(results[i])
    {
      results[ri] := results[ri].(output := "", input := "", message := "");
    }
  }

  lemma BlankTwice(rs: seq<CaseResult>)
    ensures Mapped(Blank, Mapped(Blank, rs)) == Mapped(Blank, rs)
  {
  }

  /** The outer loop; one array may back more than one group, and is then blanked again. */
  method StripInPlace(gs: seq<GroupRef>)
    modifies Arrays(gs)
    ensures GroupViews(gs) == Mapped(BlankGroup, old(GroupViews(gs)))
  {
    hide Blank, Mapped, GroupViews;
    for gi := 0 to |gs|
      invariant forall g :: g in gs ==>
                  g.results[..] == old(g.results[..]) || g.results[..] == Mapped(Blank, old(g.results[..]))
      invariant forall k :: 0 <= k < gi ==> gs[k].results[..] == Mapped(Blank, old(gs[k].results[..]))
    {
      label Before:
      var current := gs[gi].results;
      BlankTwice(old(current[..]));
      BlankInPlace(current);
      forall g | g in gs
        ensures g.results[..] ==
                if g.results == current then Mapped(Blank, old(g.results[..])) else old@Before(g.results[..])
      {
      }
    }
    forall k | 0 <= k < |gs| ensures GroupViews(gs)[k] == Mapped(BlankGroup, old(GroupViews(gs)))[k] {
      assert old(GroupViews(gs))[k] == old(GroupView(gs[k]));
    }
  }

  method MarshalBoundedGradeResult(result: GradeResultRef) returns (bytes: string)
    modifies Arrays(result.Groups())
    ensures bytes == Bounded(old(result.View()))
    ensures result.View() == if Fits(Marshal(old(result.View()))) then old(result.View()) else Strip(old(result.View()))
  {
    hide Marshal, Mapped, BlankGroup, GroupViews;
    var b := Marshal(result.View());
    if b.Some? && |b.value| <= MAX_GRADE_RESULT_BYTES {
      return b.value;
    }

    StripInPlace(result.Groups());
    b := Marshal(result.View());
    if b.Some? && |b.value| <= MAX_GRADE_RESULT_BYTES {
      return b.value;
    }

    var summary := new GradeResultRef(result.status, None, result.avgWallTime, result.avgMemory, result.score);
    b := Marshal(summary.View());
    return if b.Some? then b.value else "";
  }
}
