/** The part of Go's encoding/json that produces the worker's messages; the text is a sequence of bytes. */
module Json {
  import opened Floats
  import opened GoInt
  import opened Models
  import opened Text

  // ---- strings, section 7 of RFC 8259 -------------------------------------------------------------

  function Byte(s: string, i: nat): int {
    if i < |s| then s[i] as int else 0
  }

  predicate Continuation(b: int) { 0x80 <= b <= 0xBF }

  /** The length of the UTF-8 encoded character at the front of s, or 1 for an invalid or single byte. */
  function RuneLength(s: string): (n: nat)
    requires s != ""
    ensures 1 <= n <= |s|
  {
    var a, b, c, d := Byte(s, 0), Byte(s, 1), Byte(s, 2), Byte(s, 3);
    if 0xC2 <= a <= 0xDF && Continuation(b) then 2
    else if 0xE0 <= a <= 0xEF && Continuation(b) && (a == 0xE0 ==> b >= 0xA0) && (a == 0xED ==> b <= 0x9F)
            && Continuation(c) then 3
    else if 0xF0 <= a <= 0xF4 && Continuation(b) && (a == 0xF0 ==> b >= 0x90) && (a == 0xF4 ==> b <= 0x8F)
            && Continuation(c) && Continuation(d) then 4
    else 1
  }

  const HEX := "0123456789abcdef"

  predicate Plain(c: char) {
    ' ' <= c < '\U{80}' && c != '"' && c != '\\' && c != '<' && c != '>' && c != '&'
  }

  /** The escape of an ASCII character that is not copied as it is. */
  function Escape(c: char): string
    requires c < '\U{80}'
  {
    if c == '"' then "\\\"" else if c == '\\' then "\\\\"
    else if c == '\U{08}' then "\\b" else if c == '\U{0C}' then "\\f"
    else if c == '\n' then "\\n" else if c == '\r' then "\\r" else if c == '\t' then "\\t"
    else "\\u00" + [HEX[c as int / 16], HEX[c as int % 16]]
  }

  function QuotedBody(s: string): string {
    if s == "" then ""
    else if s[0] < '\U{80}' then (if Plain(s[0]) then [s[0]] else Escape(s[0])) + QuotedBody(s[1..])
    else
      var n := RuneLength(s);
      if n == 1 then "\\ufffd" + QuotedBody(s[1..])
      else if n == 3 && Byte(s, 0) == 0xE2 && Byte(s, 1) == 0x80 && (Byte(s, 2) == 0xA8 || Byte(s, 2) == 0xA9) then
        "\\u202" + [HEX[Byte(s, 2) - 0xA0]] + QuotedBody(s[3..])
      else s[..n] + QuotedBody(s[n..])
  }

  function Quote(s: string): string {
    "\"" + QuotedBody(s) + "\""
  }

  predicate HexDigit(c: char) { '0' <= c <= '9' || 'a' <= c <= 'f' || 'A' <= c <= 'F' }

  /** The length of the `char` of RFC 8259, section 7, that t starts with; 0 if there is none. */
  function FirstCharLength(t: string): (n: nat)
    ensures n <= |t|
  {
    if t == "" then 0
    else if t[0] == '\\' then
      if |t| >= 2 && t[1] in {'"', '\\', '/', 'b', 'f', 'n', 'r', 't'} then 2
      else if |t| >= 6 && t[1] == 'u' && HexDigit(t[2]) && HexDigit(t[3]) && HexDigit(t[4]) && HexDigit(t[5]) then 6
      else 0
    else if t[0] >= ' ' && t[0] != '"' then 1
    else 0
  }

  /** *char of RFC 8259, section 7, with the non-ASCII part of `unescaped` read as bytes. */
  predicate LegalBody(t: string)
    decreases |t|
  {
    t == "" || (FirstCharLength(t) > 0 && LegalBody(t[FirstCharLength(t)..]))
  }

  lemma FirstCharOfConcat(a: string, b: string)
    requires FirstCharLength(a) > 0
    ensures FirstCharLength(a + b) == FirstCharLength(a)
  {
  }

  lemma {:induction false} LegalConcat(a: string, b: string)
    requires LegalBody(a) && LegalBody(b)
    ensures LegalBody(a + b)
    decreases |a|
  {
    hide FirstCharLength;
    if a == "" {
      assert a + b == b;
    } else {
      var n := FirstCharLength(a);
      FirstCharOfConcat(a, b);
      LegalConcat(a[n..], b);
      assert (a + b)[n..] == a[n..] + b;
    }
  }

  lemma EscapeIsLegal(c: char)
    requires c < '\U{80}'
    ensures LegalBody(Escape(c)) && |Escape(c)| <= 6
  {
    var e := Escape(c);
    if |e| == 2 {
      assert e[2..] == "";
    } else {
      assert HexDigit(HEX[c as int / 16]) && HexDigit(HEX[c as int % 16]);
      assert e[6..] == "";
    }
  }

  lemma PlainIsLegal(c: char)
    requires Plain(c)
    ensures LegalBody([c])
  {
    assert [c][1..] == "";
  }

  lemma {:induction false} NonAsciiIsLegal(t: string)
    requires forall i :: 0 <= i < |t| ==> t[i] >= '\U{80}'
    ensures LegalBody(t)
  {
    if t != "" { NonAsciiIsLegal(t[1..]); }
  }

  /** Every string comes out as a legal JSON string of at most six bytes per byte. */
  lemma {:induction false} QuoteIsLegal(s: string)
    ensures LegalBody(QuotedBody(s)) && |QuotedBody(s)| <= 6 * |s|
  {
    hide LegalBody, FirstCharLength, Escape;
    if s == "" {
      NonAsciiIsLegal("");
    } else if s[0] < '\U{80}' {
      QuoteIsLegal(s[1..]);
      if Plain(s[0]) {
        PlainIsLegal(s[0]);
        LegalConcat([s[0]], QuotedBody(s[1..]));
      } else {
        EscapeIsLegal(s[0]);
        LegalConcat(Escape(s[0]), QuotedBody(s[1..]));
      }
    } else {
      var n := RuneLength(s);
      QuoteIsLegal(s[n..]);
      if n == 1 {
        LegalUnicodeEscape("\\ufffd");
        LegalConcat("\\ufffd", QuotedBody(s[1..]));
      } else if n == 3 && Byte(s, 0) == 0xE2 && Byte(s, 1) == 0x80 && (Byte(s, 2) == 0xA8 || Byte(s, 2) == 0xA9) {
        LegalUnicodeEscape("\\u202" + [HEX[Byte(s, 2) - 0xA0]]);
        LegalConcat("\\u202" + [HEX[Byte(s, 2) - 0xA0]], QuotedBody(s[3..]));
      } else {
        NonAsciiIsLegal(s[..n]);
        LegalConcat(s[..n], QuotedBody(s[n..]));
      }
    }
  }

  /** And never shorter. */
  lemma {:induction false} QuoteIsNoShorter(s: string)
    ensures |QuotedBody(s)| >= |s|
  {
    hide RuneLength, Escape;
    if s == "" {
    } else if s[0] < '\U{80}' {
      QuoteIsNoShorter(s[1..]);
      assert |Escape(s[0])| >= 1 by { EscapeIsThere(s[0]); }
    } else {
      QuoteIsNoShorter(s[RuneLength(s)..]);
    }
  }

  lemma EscapeIsThere(c: char)
    requires c < '\U{80}'
    ensures |Escape(c)| >= 1
  {
  }

  lemma LegalUnicodeEscape(e: string)
    requires |e| == 6 && e[0] == '\\' && e[1] == 'u'
    requires HexDigit(e[2]) && HexDigit(e[3]) && HexDigit(e[4]) && HexDigit(e[5])
    ensures LegalBody(e)
  {
    assert e[6..] == "";
  }

  // ---- numbers ------------------------------------------------------------------------------------

  /** strconv's %f with the shortest number of decimals. */
  function Fixed(f: Float32): string
    requires f.Number?
  {
    var n := |f.digits|;
    if f.point >= n then (if f.point == 0 then "0" else f.digits + Zeros(f.point - n))
    else if f.point > 0 then f.digits[..f.point] + "." + f.digits[f.point..]
    else "0." + Zeros(-f.point) + f.digits
  }

  /** strconv's %e, after encoding/json has cleaned e-09 up to e-9. */
  function Scientific(f: Float32): string
    requires f.Number? && f.digits != ""
  {
    var exp := f.point - 1;
    f.digits[..1] + (if |f.digits| > 1 then "." + f.digits[1..] else "")
    + "e" + if exp < 0 then "-" + Digits(-exp) else "+" + (if exp < 10 then "0" else "") + Digits(exp)
  }

  /** None where json.Marshal reports an unsupported value. */
  function FloatText(f: Float32): Option<string> {
    if !f.Number? then None
    else
      var abs := if f.digits != "" && (f.point < -5 || f.point > 21) then Scientific(f) else Fixed(f);
      Some(if f.neg then "-" + abs else abs)
  }

  lemma FixedIsShort(f: Float32)
    requires f.Number? && (f.digits == "" || -5 <= f.point <= 21)
    ensures |Fixed(f)| <= 22
  {
    hide AllDigits;
  }

  lemma ScientificIsShort(f: Float32)
    requires f.Number? && f.digits != ""
    ensures |Scientific(f)| <= 15
  {
    hide Digits;
    var exp := f.point - 1;
    var e := if exp < 0 then -exp else exp;
    assert Pow10(2) == 100 by { assert Pow10(1) == 10 * Pow10(0); }
    DigitsLength(e, 2, 100);
  }

  lemma FloatIsShort(f: Float32)
    ensures FloatText(f).Some? <==> f.Number?
    ensures FloatText(f).Some? ==> |FloatText(f).value| <= 23
  {
    hide Fixed, Scientific;
    if f.Number? {
      if f.digits != "" { ScientificIsShort(f); }
      if f.digits == "" || -5 <= f.point <= 21 { FixedIsShort(f); }
    }
  }

  lemma IntIsShort(n: int32)
    ensures |Itoa(n)| <= 11
  {
    var k: int := n;
    var m: nat := if k < 0 then -k else k;
    assert Pow10(10) == 10_000_000_000 by {
      assert Pow10(5) == 100_000 by { assert Pow10(3) == 1000 by { assert Pow10(1) == 10 * Pow10(0); } }
      assert Pow10(8) == 1000 * Pow10(5) by { assert Pow10(6) == 10 * Pow10(5); }
      assert Pow10(9) == 10 * Pow10(8);
    }
    DigitsLength(m, 10, 10_000_000_000);
  }

  // ---- results ------------------------------------------------------------------------------------

  function StatusText(s: Status): (t: string)
    ensures 0 < |t| <= 21
  {
    match s
    case COMPILE_FAILED => "COMPILE_FAILED"
    case RUN_PASSED => "RUN_PASSED"
    case RUN_FAILED => "RUN_FAILED"
    case TIME_LIMIT_EXCEEDED => "TIME_LIMIT_EXCEEDED"
    case MEMORY_LIMIT_EXCEEDED => "MEMORY_LIMIT_EXCEEDED"
    case RUNTIME_ERROR => "RUNTIME_ERROR"
    case SIGNAL_ERROR => "SIGNAL_ERROR"
    case GRADER_ERROR => "GRADER_ERROR"
    case FILE_NOT_FOUND => "FILE_NOT_FOUND"
    case QUEUED => "QUEUED"
    case RUNNING => "RUNNING"
  }

  function CommaSeparated(items: seq<string>): string {
    if items == [] then "" else if |items| == 1 then items[0] else items[0] + "," + CommaSeparated(items[1..])
  }

  function CaseText(r: TestCaseResult<Float32>): Option<string> {
    var w := FloatText(r.wallTime);
    if w.None? then None
    else Some("{\"id\":" + Quote(r.id) + ",\"status\":" + Quote(StatusText(r.status)) + ",\"input\":" + Quote(r.input)
              + ",\"output\":" + Quote(r.output) + ",\"message\":" + Quote(r.message)
              + ",\"wall_time\":" + w.value + ",\"memory\":" + Itoa(r.memory) + "}")
  }

  function CaseTexts(rs: seq<TestCaseResult<Float32>>): (r: Option<seq<string>>)
    ensures r.Some? ==> |r.value| == |rs| && forall i :: 0 <= i < |rs| ==> CaseText(rs[i]) == Some(r.value[i])
    ensures r.None? <==> exists i :: 0 <= i < |rs| && CaseText(rs[i]).None?
  {
    if rs == [] then Some([])
    else
      match (CaseText(rs[0]), CaseTexts(rs[1..]))
      case (Some(t), Some(ts)) => Some([t] + ts)
      case (_, _) => None
  }

  /** A group without cases holds a nil slice, which is encoded as null. */
  function GroupText(g: TestCaseGroupResult<Float32>): Option<string> {
    match CaseTexts(g.results)
    case None => None
    case Some(ts) =>
      Some("{\"id\":" + Quote(g.id) + ",\"score\":" + Itoa(g.score) + ",\"results\":"
           + (if ts == [] then "null" else "[" + CommaSeparated(ts) + "]") + "}")
  }

  function GroupTexts(gs: seq<TestCaseGroupResult<Float32>>): (r: Option<seq<string>>)
    ensures r.Some? ==> |r.value| == |gs| && forall i :: 0 <= i < |gs| ==> GroupText(gs[i]) == Some(r.value[i])
    ensures r.None? <==> exists i :: 0 <= i < |gs| && GroupText(gs[i]).None?
  {
    if gs == [] then Some([])
    else
      match (GroupText(gs[0]), GroupTexts(gs[1..]))
      case (Some(t), Some(ts)) => Some([t] + ts)
      case (_, _) => None
  }

  function GroupsText(gs: Option<seq<TestCaseGroupResult<Float32>>>): Option<string> {
    match gs
    case None => Some("null")
    case Some(groups) =>
      match GroupTexts(groups)
      case None => None
      case Some(ts) => Some("[" + CommaSeparated(ts) + "]")
  }

  function Head(r: GradeResult<Float32, Float32>): string {
    "{\"status\":" + Quote(StatusText(r.status)) + ",\"test_case_group_results\":"
  }

  const AVG_WALL_TIME := "\"avg_wall_time\""
  const AVG_MEMORY := "\"avg_memory\""
  const SCORE := "\"score\""

  function Field(key: string, value: string): string {
    "," + key + ":" + value
  }

  function Tail(r: GradeResult<Float32, Float32>, avg: string): string {
    Field(AVG_WALL_TIME, avg) + Field(AVG_MEMORY, Itoa(r.avgMemory)) + Field(SCORE, Itoa(r.score) + "}")
  }

  /** json.Marshal of a grade result; None is an error. */
  function Marshal(r: GradeResult<Float32, Float32>): Option<string> {
    match (GroupsText(r.groups), FloatText(r.avgWallTime))
    case (Some(groups), Some(avg)) => Some(Head(r) + groups + Tail(r, avg))
    case (_, _) => None
  }

  /** json.Marshal of a run result; None is an error. */
  function MarshalRun(r: RunResult<Float32>): Option<string> {
    match FloatText(r.wallTime)
    case None => None
    case Some(w) =>
      Some("{\"id\":" + Quote(r.id) + ",\"status\":" + Quote(StatusText(r.status)) + ",\"output\":" + Quote(r.output)
           + ",\"wall_time\":" + w + ",\"memory\":" + Itoa(r.memory) + ",\"exit_code\":" + Itoa(r.exitCode)
           + ",\"compare_result\":" + Quote(r.compareResult) + "}")
  }
}
