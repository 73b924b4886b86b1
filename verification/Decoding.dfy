/** What can be read from the results that a worker publishes (cmd/worker/worker.go, domain/models). */
module Decoding {
  import opened Decimals
  import opened Floats
  import opened Models
  import opened Text
  import opened Json
  import opened JsonStrings
  import opened JsonValues
  import opened Publish
  import opened Sequences

  // ---- the texts of objects, field by field -------------------------------------------------------

  function Colon(k: string): string { "\"" + k + "\":" }

  function Comma(k: string): string { ",\"" + k + "\":" }

  lemma LastField(k: string, t: string)
    ensures FieldsText([(k, t)]) == Colon(k) + t + "}"
  {
  }

  lemma FieldBefore(k: string, t: string, k2: string, t2: string, fs: Texts, after: string)
    requires FieldsText([(k2, t2)] + fs) == Colon(k2) + t2 + after
    ensures FieldsText([(k, t), (k2, t2)] + fs) == Colon(k) + t + (Comma(k2) + t2 + after)
  {
    var all := [(k, t), (k2, t2)] + fs;
    assert all[1..] == [(k2, t2)] + fs;
    assert "," + Colon(k2) == Comma(k2);
    assert "," + (Colon(k2) + t2 + after) == Comma(k2) + t2 + after;
  }

  lemma ThreeFields(k1: string, t1: string, k2: string, t2: string, k3: string, t3: string)
    ensures FieldsText([(k1, t1), (k2, t2), (k3, t3)]) ==
            Colon(k1) + t1 + (Comma(k2) + t2 + (Comma(k3) + t3 + "}"))
  {
    hide FieldsText, Colon, Comma;
    LastField(k3, t3);
    assert [(k3, t3)] + [] == [(k3, t3)];
    FieldBefore(k2, t2, k3, t3, [], "}");
    assert [(k2, t2), (k3, t3)] + [] == [(k2, t2)] + [(k3, t3)];
    FieldBefore(k1, t1, k2, t2, [(k3, t3)], Comma(k3) + t3 + "}");
    assert [(k1, t1), (k2, t2)] + [(k3, t3)] == [(k1, t1), (k2, t2), (k3, t3)];
  }

  lemma FiveFields(k1: string, t1: string, k2: string, t2: string, k3: string, t3: string, k4: string, t4: string,
                   k5: string, t5: string)
    ensures FieldsText([(k1, t1), (k2, t2), (k3, t3), (k4, t4), (k5, t5)]) ==
            Colon(k1) + t1 + (Comma(k2) + t2 + (Comma(k3) + t3 + (Comma(k4) + t4 + (Comma(k5) + t5 + "}"))))
  {
    hide FieldsText, Colon, Comma;
    ThreeFields(k3, t3, k4, t4, k5, t5);
    var three := [(k3, t3), (k4, t4), (k5, t5)];
    var after := Comma(k4) + t4 + (Comma(k5) + t5 + "}");
    assert three == [(k3, t3)] + [(k4, t4), (k5, t5)];
    FieldBefore(k2, t2, k3, t3, [(k4, t4), (k5, t5)], after);
    assert [(k2, t2), (k3, t3)] + [(k4, t4), (k5, t5)] == [(k2, t2)] + three;
    FieldBefore(k1, t1, k2, t2, three, Comma(k3) + t3 + after);
    assert [(k1, t1), (k2, t2)] + three == [(k1, t1), (k2, t2), (k3, t3), (k4, t4), (k5, t5)];
  }

  lemma SevenFields(k1: string, t1: string, k2: string, t2: string, k3: string, t3: string, k4: string, t4: string,
                    k5: string, t5: string, k6: string, t6: string, k7: string, t7: string)
    ensures FieldsText([(k1, t1), (k2, t2), (k3, t3), (k4, t4), (k5, t5), (k6, t6), (k7, t7)]) ==
            Colon(k1) + t1 + (Comma(k2) + t2 + (Comma(k3) + t3 + (Comma(k4) + t4 + (Comma(k5) + t5
            + (Comma(k6) + t6 + (Comma(k7) + t7 + "}"))))))
  {
    hide FieldsText, Colon, Comma;
    FiveFields(k3, t3, k4, t4, k5, t5, k6, t6, k7, t7);
    var five := [(k3, t3), (k4, t4), (k5, t5), (k6, t6), (k7, t7)];
    var four := [(k4, t4), (k5, t5), (k6, t6), (k7, t7)];
    var after := Comma(k4) + t4 + (Comma(k5) + t5 + (Comma(k6) + t6 + (Comma(k7) + t7 + "}")));
    assert five == [(k3, t3)] + four;
    FieldBefore(k2, t2, k3, t3, four, after);
    assert [(k2, t2), (k3, t3)] + four == [(k2, t2)] + five;
    FieldBefore(k1, t1, k2, t2, five, Comma(k3) + t3 + after);
    assert [(k1, t1), (k2, t2)] + five == [(k1, t1), (k2, t2), (k3, t3), (k4, t4), (k5, t5), (k6, t6), (k7, t7)];
  }

  /** The parts of a text with seven fields, grouped from the right instead of from the left. */
  lemma SevenParts(s1: string, t1: string, s2: string, t2: string, s3: string, t3: string, s4: string, t4: string,
                   s5: string, t5: string, s6: string, t6: string, s7: string, t7: string, end: string)
    ensures "{" + s1 + t1 + s2 + t2 + s3 + t3 + s4 + t4 + s5 + t5 + s6 + t6 + s7 + t7 + end ==
            "{" + (s1 + t1 + (s2 + t2 + (s3 + t3 + (s4 + t4 + (s5 + t5 + (s6 + t6 + (s7 + t7 + end)))))))
  {
    var (a, b) := ("{" + s1 + t1 + s2 + t2 + s3 + t3, s4 + t4 + (s5 + t5 + (s6 + t6 + (s7 + t7 + end))));
    assert a + s4 + t4 + s5 + t5 + s6 + t6 + s7 + t7 + end == a + b;
    assert a + b == "{" + (s1 + t1 + (s2 + t2 + (s3 + t3 + b)));
  }

  // ---- the values of fields -----------------------------------------------------------------------

  lemma IntDenotes(n: int)
    ensures Denotes(Itoa(n), Num(Itoa(n)))
  {
    hide Denotes;
    ItoaIsNumeric(n);
    NumberDenotes(Itoa(n));
  }

  lemma FloatDenotes(f: Float32)
    requires f.Number?
    ensures FloatText(f).Some? && Denotes(FloatText(f).value, Num(FloatText(f).value))
    ensures ReadDecimal(FloatText(f).value) == Some(Units(f))
  {
    hide Denotes;
    FloatIsRead(f);
    NumberDenotes(FloatText(f).value);
  }

  lemma {:induction false} PlainIsSanitized(s: string)
    requires forall c :: c in s ==> Plain(c)
    ensures Sanitized(s) == s
  {
    if s != "" {
      assert s[0] in s;
      PlainIsSanitized(s[1..]);
      assert [s[0]] + s[1..] == s;
    }
  }

  lemma StatusDenotes(s: Status)
    ensures Denotes(Quote(StatusText(s)), Str(StatusText(s)))
  {
    hide Denotes, StatusText, Quote, Sanitized;
    StatusLetters(s);
    PlainIsSanitized(StatusText(s));
    QuoteDenotes(StatusText(s));
  }

  lemma FiveLetters(s: Status)
    ensures |StatusText(s)| > 4
  {
  }

  /** A status is known by its text. */
  lemma StatusesAreDistinct(a: Status, b: Status)
    requires StatusText(a) == StatusText(b)
    ensures a == b
  {
    var (s, t) := (StatusText(a), StatusText(b));
    assert |s| == |t| && s[0] == t[0] && s[4] == t[4] by { FiveLetters(a); }
  }

  // ---- a run result -------------------------------------------------------------------------------

  /** A number that is written with exactly this value. */
  function Decimal(f: Float32): Value
    requires f.Number?
  {
    FloatDenotes(f);
    Num(FloatText(f).value)
  }

  function RunValue(r: RunResult<Float32>): Value
    requires r.wallTime.Number?
  {
    Object([("id", Str(Sanitized(r.id))), ("status", Str(StatusText(r.status))), ("output", Str(Sanitized(r.output))),
            ("wall_time", Decimal(r.wallTime)), ("memory", Num(Itoa(r.memory))), ("exit_code", Num(Itoa(r.exitCode))),
            ("compare_result", Str(Sanitized(r.compareResult)))])
  }

  lemma RunText(r: RunResult<Float32>, w: string)
    requires FloatText(r.wallTime) == Some(w)
    ensures MarshalRun(r) ==
            Some("{" + FieldsText([("id", Quote(r.id)), ("status", Quote(StatusText(r.status))),
                                   ("output", Quote(r.output)), ("wall_time", w), ("memory", Itoa(r.memory)), ("exit_code", Itoa(r.exitCode)),
                                   ("compare_result", Quote(r.compareResult))]))
  {
    hide FieldsText, Quote, StatusText, Itoa, FloatText;
    RunKeys();
    SevenFields("id", Quote(r.id), "status", Quote(StatusText(r.status)), "output", Quote(r.output), "wall_time", w,
                "memory", Itoa(r.memory), "exit_code", Itoa(r.exitCode), "compare_result", Quote(r.compareResult));
    hide Colon, Comma;
    SevenParts(Colon("id"), Quote(r.id), Comma("status"), Quote(StatusText(r.status)), Comma("output"), Quote(r.output),
               Comma("wall_time"), w, Comma("memory"), Itoa(r.memory), Comma("exit_code"), Itoa(r.exitCode),
               Comma("compare_result"), Quote(r.compareResult), "}");
  }

  lemma RunKeys()
    ensures "{\"id\":" == "{" + Colon("id") && ",\"status\":" == Comma("status") && ",\"output\":" == Comma("output")
    ensures ",\"wall_time\":" == Comma("wall_time") && ",\"memory\":" == Comma("memory")
    ensures ",\"exit_code\":" == Comma("exit_code") && ",\"compare_result\":" == Comma("compare_result")
  {
  }

  /** A run result that is published is read back with all its fields; bytes that are no characters are replaced. */
  lemma RunIsRead(r: RunResult<Float32>)
    ensures MarshalRun(r).Some? <==> r.wallTime.Number?
    ensures r.wallTime.Number? ==>
              && Read(MarshalRun(r).value) ==
                 Some(Object([("id", Str(Sanitized(r.id))), ("status", Str(StatusText(r.status))),
                              ("output", Str(Sanitized(r.output))), ("wall_time", Num(FloatText(r.wallTime).value)),
                              ("memory", Num(Itoa(r.memory))), ("exit_code", Num(Itoa(r.exitCode))),
                              ("compare_result", Str(Sanitized(r.compareResult)))]))
              && ReadDecimal(FloatText(r.wallTime).value) == Some(Units(r.wallTime))
  {
    hide Denotes, FieldsText, Quote, Sanitized, StatusText, Itoa, FloatText, MarshalRun, Read;
    FloatIsShort(r.wallTime);
    WithoutTime(r);
    if r.wallTime.Number? {
      var w := FloatText(r.wallTime).value;
      RunText(r, w);
      var fs := [("id", Quote(r.id)), ("status", Quote(StatusText(r.status))), ("output", Quote(r.output)),
                 ("wall_time", w), ("memory", Itoa(r.memory)), ("exit_code", Itoa(r.exitCode)),
                 ("compare_result", Quote(r.compareResult))];
      var vs := RunValue(r).fields;
      QuoteDenotes(r.id); StatusDenotes(r.status); QuoteDenotes(r.output); FloatDenotes(r.wallTime);
      IntDenotes(r.memory); IntDenotes(r.exitCode); QuoteDenotes(r.compareResult);
      assert Key("id") && Key("status") && Key("output") && Key("wall_time") && Key("memory") && Key("exit_code")
             && Key("compare_result") by { RunKeysArePlain(); }
      hide Key;
      assert FieldsDenote(fs, vs);
      ObjectDenotes(fs, vs);
      DenotedIsRead("{" + FieldsText(fs), Object(vs));
    }
  }

  lemma WithoutTime(r: RunResult<Float32>)
    ensures MarshalRun(r).Some? <==> FloatText(r.wallTime).Some?
  {
  }

  lemma RunKeysArePlain()
    ensures Key("id") && Key("status") && Key("output") && Key("wall_time") && Key("memory") && Key("exit_code")
    ensures Key("compare_result")
  {
  }

  // ---- a grade result -----------------------------------------------------------------------------

  function CaseValue(r: TestCaseResult<Float32>): Value
    requires r.wallTime.Number?
  {
    Object([("id", Str(Sanitized(r.id))), ("status", Str(StatusText(r.status))), ("input", Str(Sanitized(r.input))),
            ("output", Str(Sanitized(r.output))), ("message", Str(Sanitized(r.message))),
            ("wall_time", Decimal(r.wallTime)), ("memory", Num(Itoa(r.memory)))])
  }

  lemma CaseText7(r: TestCaseResult<Float32>, w: string)
    requires FloatText(r.wallTime) == Some(w)
    ensures CaseText(r) ==
            Some("{" + FieldsText([("id", Quote(r.id)), ("status", Quote(StatusText(r.status))),
                                   ("input", Quote(r.input)), ("output", Quote(r.output)), ("message", Quote(r.message)), ("wall_time", w),
                                   ("memory", Itoa(r.memory))]))
  {
    hide FieldsText, Quote, StatusText, Itoa, FloatText;
    CaseKeys();
    SevenFields("id", Quote(r.id), "status", Quote(StatusText(r.status)), "input", Quote(r.input),
                "output", Quote(r.output), "message", Quote(r.message), "wall_time", w, "memory", Itoa(r.memory));
    hide Colon, Comma;
    SevenParts(Colon("id"), Quote(r.id), Comma("status"), Quote(StatusText(r.status)), Comma("input"), Quote(r.input),
               Comma("output"), Quote(r.output), Comma("message"), Quote(r.message), Comma("wall_time"), w,
               Comma("memory"), Itoa(r.memory), "}");
  }

  lemma CaseKeys()
    ensures "{\"id\":" == "{" + Colon("id") && ",\"status\":" == Comma("status") && ",\"input\":" == Comma("input")
    ensures ",\"output\":" == Comma("output") && ",\"message\":" == Comma("message")
    ensures ",\"wall_time\":" == Comma("wall_time") && ",\"memory\":" == Comma("memory")
  {
  }

  lemma CaseKeysArePlain()
    ensures Key("id") && Key("status") && Key("input") && Key("output") && Key("message") && Key("wall_time")
    ensures Key("memory")
  {
  }

  lemma CaseDenotes(r: TestCaseResult<Float32>)
    requires r.wallTime.Number?
    ensures CaseText(r).Some? && Denotes(CaseText(r).value, CaseValue(r))
  {
    hide Denotes, FieldsText, Quote, Sanitized, StatusText, Itoa, FloatText, CaseText;
    FloatDenotes(r.wallTime);
    var w := FloatText(r.wallTime).value;
    CaseText7(r, w);
    var fs := [("id", Quote(r.id)), ("status", Quote(StatusText(r.status))), ("input", Quote(r.input)),
               ("output", Quote(r.output)), ("message", Quote(r.message)), ("wall_time", w),
               ("memory", Itoa(r.memory))];
    var vs := CaseValue(r).fields;
    QuoteDenotes(r.id); StatusDenotes(r.status); QuoteDenotes(r.input); QuoteDenotes(r.output); QuoteDenotes(r.message);
    IntDenotes(r.memory);
    CaseKeysArePlain();
    hide Key;
    assert FieldsDenote(fs, vs);
    ObjectDenotes(fs, vs);
  }

  function GroupValue(g: TestCaseGroupResult<Float32>): Value
    requires Encodable(g)
  {
    Object([("id", Str(Sanitized(g.id))), ("score", Num(Itoa(g.score))),
            ("results", if g.results == [] then Null
                        else List(seq(|g.results|, i requires 0 <= i < |g.results| => CaseValue(g.results[i]))))])
  }

  lemma GroupKeys()
    ensures "{\"id\":" == "{" + Colon("id") && ",\"score\":" == Comma("score") && ",\"results\":" == Comma("results")
    ensures Key("id") && Key("score") && Key("results")
  {
  }

  lemma ThreeParts(s1: string, t1: string, s2: string, t2: string, s3: string, t3: string, end: string)
    ensures "{" + s1 + t1 + s2 + t2 + s3 + t3 + end == "{" + (s1 + t1 + (s2 + t2 + (s3 + t3 + end)))
  {
  }

  lemma GroupDenotes(g: TestCaseGroupResult<Float32>)
    requires Encodable(g)
    ensures GroupText(g).Some? && Denotes(GroupText(g).value, GroupValue(g))
  {
    hide Denotes, FieldsText, Quote, Sanitized, Itoa, CaseText, CaseValue, CommaSeparated;
    forall i | 0 <= i < |g.results|
      ensures CaseText(g.results[i]).Some? && Denotes(CaseText(g.results[i]).value, CaseValue(g.results[i]))
    {
      CaseDenotes(g.results[i]);
    }
    var ts := CaseTexts(g.results).value;
    var text := if ts == [] then "null" else "[" + CommaSeparated(ts) + "]";
    var value := GroupValue(g).fields[2].1;
    if ts == [] { NullDenotes(); } else { ListDenotes(ts, value.items); }
    var fs := [("id", Quote(g.id)), ("score", Itoa(g.score)), ("results", text)];
    GroupKeys();
    ThreeFields("id", Quote(g.id), "score", Itoa(g.score), "results", text);
    ThreeParts(Colon("id"), Quote(g.id), Comma("score"), Itoa(g.score), Comma("results"), text, "}");
    QuoteDenotes(g.id); IntDenotes(g.score);
    hide Key, Colon, Comma;
    assert FieldsDenote(fs, GroupValue(g).fields);
    ObjectDenotes(fs, GroupValue(g).fields);
  }

  predicate AllEncodable(r: Result) {
    r.avgWallTime.Number? && (r.groups.Some? ==> forall g :: 0 <= g < |r.groups.value| ==> Encodable(r.groups.value[g]))
  }

  function GroupsValue(gs: Option<seq<TestCaseGroupResult<Float32>>>): Value
    requires gs.Some? ==> forall g :: 0 <= g < |gs.value| ==> Encodable(gs.value[g])
  {
    if gs.None? then Null
    else List(seq(|gs.value|, g requires 0 <= g < |gs.value| => GroupValue(gs.value[g])))
  }

  lemma GroupsDenote(gs: Option<seq<TestCaseGroupResult<Float32>>>)
    requires gs.Some? ==> forall g :: 0 <= g < |gs.value| ==> Encodable(gs.value[g])
    ensures GroupsText(gs).Some? && Denotes(GroupsText(gs).value, GroupsValue(gs))
  {
    hide Denotes, GroupText, GroupValue, CommaSeparated, Encodable;
    if gs.None? {
      NullDenotes();
    } else {
      forall g | 0 <= g < |gs.value|
        ensures GroupText(gs.value[g]).Some? && Denotes(GroupText(gs.value[g]).value, GroupValue(gs.value[g]))
      {
        GroupDenotes(gs.value[g]);
      }
      ListDenotes(GroupTexts(gs.value).value, GroupsValue(gs).items);
    }
  }

  function GradeValue(r: Result): Value
    requires AllEncodable(r)
  {
    Object([("status", Str(StatusText(r.status))), ("test_case_group_results", GroupsValue(r.groups)),
            ("avg_wall_time", Decimal(r.avgWallTime)), ("avg_memory", Num(Itoa(r.avgMemory))),
            ("score", Num(Itoa(r.score)))])
  }

  lemma GradeKeys()
    ensures "{\"status\":" == "{" + Colon("status")
    ensures ",\"test_case_group_results\":" == Comma("test_case_group_results")
    ensures "," + AVG_WALL_TIME + ":" == Comma("avg_wall_time") && "," + AVG_MEMORY + ":" == Comma("avg_memory")
    ensures "," + SCORE + ":" == Comma("score")
  {
  }

  lemma GradeKeysArePlain()
    ensures Key("status") && Key("test_case_group_results") && Key("avg_wall_time") && Key("avg_memory") && Key("score")
  {
  }

  lemma FiveParts(s1: string, t1: string, s2: string, t2: string, s3: string, t3: string, s4: string, t4: string,
                  s5: string, t5: string, end: string)
    ensures "{" + s1 + t1 + s2 + t2 + (s3 + t3 + (s4 + t4) + (s5 + (t5 + end))) ==
            "{" + (s1 + t1 + (s2 + t2 + (s3 + t3 + (s4 + t4 + (s5 + t5 + end)))))
  {
    assert s3 + t3 + (s4 + t4) + (s5 + (t5 + end)) == s3 + t3 + (s4 + t4 + (s5 + t5 + end));
  }

  lemma GradeText(r: Result, groups: string, avg: string)
    ensures Head(r) + groups + Tail(r, avg) ==
            "{" + FieldsText([("status", Quote(StatusText(r.status))), ("test_case_group_results", groups),
                              ("avg_wall_time", avg), ("avg_memory", Itoa(r.avgMemory)), ("score", Itoa(r.score))])
  {
    hide FieldsText, Quote, StatusText, Itoa;
    GradeKeys();
    FiveFields("status", Quote(StatusText(r.status)), "test_case_group_results", groups, "avg_wall_time", avg,
               "avg_memory", Itoa(r.avgMemory), "score", Itoa(r.score));
    hide Colon, Comma;
    FiveParts(Colon("status"), Quote(StatusText(r.status)), Comma("test_case_group_results"), groups,
              Comma("avg_wall_time"), avg, Comma("avg_memory"), Itoa(r.avgMemory), Comma("score"), Itoa(r.score), "}");
  }

  /** A grade result that is encoded is read back with all its fields, groups and cases. */
  lemma GradeIsRead(r: Result)
    ensures Marshal(r).Some? <==> AllEncodable(r)
    ensures AllEncodable(r) ==> Read(Marshal(r).value) == Some(GradeValue(r))
  {
    hide Denotes, FieldsText, Quote, StatusText, Itoa, FloatText, Read, Encodable, GroupsText, GroupsValue, Head, Tail;
    FloatIsShort(r.avgWallTime);
    GroupsTextIff(r.groups);
    if AllEncodable(r) {
      GroupsDenote(r.groups);
      FloatDenotes(r.avgWallTime);
      var (groups, avg) := (GroupsText(r.groups).value, FloatText(r.avgWallTime).value);
      GradeText(r, groups, avg);
      var fs := [("status", Quote(StatusText(r.status))), ("test_case_group_results", groups), ("avg_wall_time", avg),
                 ("avg_memory", Itoa(r.avgMemory)), ("score", Itoa(r.score))];
      StatusDenotes(r.status); IntDenotes(r.avgMemory); IntDenotes(r.score);
      GradeKeysArePlain();
      hide Key;
      assert FieldsDenote(fs, GradeValue(r).fields);
      ObjectDenotes(fs, GradeValue(r).fields);
      DenotedIsRead("{" + FieldsText(fs), GradeValue(r));
    }
  }

  lemma CaseTextIff(r: TestCaseResult<Float32>)
    ensures CaseText(r).Some? <==> r.wallTime.Number?
  {
    hide FloatText, Quote, Itoa, StatusText;
    FloatIsShort(r.wallTime);
  }

  lemma GroupTextIff(g: TestCaseGroupResult<Float32>)
    ensures GroupText(g).Some? <==> Encodable(g)
  {
    hide CaseText, Quote, Itoa, CommaSeparated;
    forall i | 0 <= i < |g.results| ensures CaseText(g.results[i]).Some? <==> g.results[i].wallTime.Number? {
      CaseTextIff(g.results[i]);
    }
  }

  lemma GroupsTextIff(gs: Option<seq<TestCaseGroupResult<Float32>>>)
    ensures GroupsText(gs).Some? <==> (gs.Some? ==> forall g :: 0 <= g < |gs.value| ==> Encodable(gs.value[g]))
  {
    hide GroupText, Encodable, CommaSeparated;
    if gs.Some? {
      forall g | 0 <= g < |gs.value| ensures GroupText(gs.value[g]).Some? <==> Encodable(gs.value[g]) {
        GroupTextIff(gs.value[g]);
      }
    }
  }

  // ---- what is published --------------------------------------------------------------------------

  /** The case without what it printed, what it was given and what was said about it. */
  function Undetailed(r: TestCaseResult<Float32>): TestCaseResult<Float32> {
    TestCaseResult(r.id, r.status, "", "", "", r.wallTime, r.memory)
  }

  function UndetailedGroup(g: TestCaseGroupResult<Float32>): TestCaseGroupResult<Float32> {
    TestCaseGroupResult(g.id, g.score, Mapped(Undetailed, g.results))
  }

  function WithoutDetail(r: Result): Result {
    match r.groups
    case None => r
    case Some(gs) => r.(groups := Some(Mapped(UndetailedGroup, gs)))
  }

  lemma StripIsWithoutDetail(r: Result)
    ensures Strip(r) == WithoutDetail(r) && (AllEncodable(WithoutDetail(r)) <==> AllEncodable(r))
  {
    if r.groups.Some? {
      var gs := r.groups.value;
      forall g | 0 <= g < |gs|
        ensures BlankGroup(gs[g]) == UndetailedGroup(gs[g]) && (Encodable(UndetailedGroup(gs[g])) <==> Encodable(gs[g]))
      {
        assert Mapped(Blank, gs[g].results) == Mapped(Undetailed, gs[g].results);
        assert forall i :: 0 <= i < |gs[g].results| ==>
                 Mapped(Undetailed, gs[g].results)[i].wallTime == gs[g].results[i].wallTime;
      }
      hide BlankGroup, UndetailedGroup, Encodable;
      assert Mapped(BlankGroup, gs) == Mapped(UndetailedGroup, gs);
      assert forall g :: 0 <= g < |gs| ==> (Encodable(Mapped(UndetailedGroup, gs)[g]) <==> Encodable(gs[g]));
    }
  }

  /**
   * What is read from the published bytes: the whole grade if its text is at most 8 MiB; otherwise all of it but the
   * detail of the cases if that is; and otherwise, or where a case has a time without a JSON form, no groups.
   */
  lemma PublishedIsRead(r: Result)
    requires r.avgWallTime.Number?
    ensures AllEncodable(r.(groups := None))
    ensures AllEncodable(r) ==> Marshal(r).Some? && AllEncodable(WithoutDetail(r)) && Marshal(WithoutDetail(r)).Some?
    ensures Read(Bounded(r)) ==
            if AllEncodable(r) && |Marshal(r).value| <= 8 * 1024 * 1024 then Some(GradeValue(r))
            else if AllEncodable(r) && |Marshal(WithoutDetail(r)).value| <= 8 * 1024 * 1024 then
              Some(GradeValue(WithoutDetail(r)))
            else Some(GradeValue(r.(groups := None)))
  {
    hide Read, Marshal, Strip, WithoutDetail, Encodable;
    StripIsWithoutDetail(r);
    GradeIsRead(r);
    GradeIsRead(WithoutDetail(r));
    GradeIsRead(r.(groups := None));
  }
}
