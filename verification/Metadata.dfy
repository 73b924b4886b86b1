/** domain/models/metadata.go: parsing the metadata file that isolate leaves beside a box. */
module Metadata {
  import opened Floats
  import opened GoInt
  import opened Models
  import opened Text
  import opened Sequences

  datatype Metadata = Metadata(failedStatus: string, failedMessage: string, time: Float32, wallTime: Float32,
                               memory: int32)

  datatype ParseError = BadTime | BadWallTime | BadMemory

  datatype ParseResult = Ok(value: Metadata) | Err(error: ParseError)

  /** strconv.ParseFloat(_, 32); None where it reports an error. NaN and the infinities are no errors. */
  type FloatParser = string -> Option<Float32>

  datatype Key = StatusKey | MessageKey | TimeKey | WallKey | MemoryKey

  function Prefix(k: Key): string {
    match k
    case StatusKey => "status:"
    case MessageKey => "message:"
    case TimeKey => "time:"
    case WallKey => "time-wall:"
    case MemoryKey => "max-rss:"
  }

  predicate HasKey(k: Key, line: string) { Prefix(k) <= line }

  function With(k: Key): string -> bool { line => HasKey(k, line) }

  function ValueText(k: Key, line: string): string
    requires HasKey(k, line)
  {
    TrimSpace(line[|Prefix(k)|..])
  }

  /** The line has a numeric key and a value that does not parse. */
  predicate Malformed(pf: FloatParser, line: string) {
    || (HasKey(TimeKey, line) && pf(ValueText(TimeKey, line)).None?)
    || (HasKey(WallKey, line) && pf(ValueText(WallKey, line)).None?)
    || (HasKey(MemoryKey, line) && Atoi(ValueText(MemoryKey, line)).None?)
  }

  function Bad(pf: FloatParser): string -> bool { line => Malformed(pf, line) }

  function Complaint(line: string): ParseError {
    if HasKey(TimeKey, line) then BadTime else if HasKey(WallKey, line) then BadWallTime else BadMemory
  }

  /** The value on the last line with key k. */
  function LastValue(k: Key, lines: seq<string>): Option<string> {
    match LastThat(With(k), lines)
    case Absent => None
    case At(_, line) => Some(ValueText(k, line))
  }

  function TextField(v: Option<string>): string {
    if v.Some? then v.value else ""
  }

  function FloatField(pf: FloatParser, v: Option<string>): Float32 {
    if v.Some? && pf(v.value).Some? then pf(v.value).value else NO_TIME
  }

  function IntField(v: Option<string>): int32 {
    if v.Some? && Atoi(v.value).Some? then Wrap32(Atoi(v.value).value) else 0
  }

  /** What a successful parse returns: each field comes from the last line with its key. */
  function Fields(pf: FloatParser, lines: seq<string>): Metadata {
    Metadata(TextField(LastValue(StatusKey, lines)), TextField(LastValue(MessageKey, lines)),
             FloatField(pf, LastValue(TimeKey, lines)), FloatField(pf, LastValue(WallKey, lines)),
             IntField(LastValue(MemoryKey, lines)))
  }

  /** The specification of ParseMetadata. */
  function Parse(pf: FloatParser, text: string): ParseResult {
    var lines := Lines(text);
    match FirstThat(Bad(pf), lines)
    case At(_, line) => Err(Complaint(line))
    case Absent => Ok(Fields(pf, lines))
  }

  /** The source's loop: fields are overwritten line by line, and the first bad number returns. */
  method ParseMetadata(text: string, pf: FloatParser) returns (r: ParseResult)
    ensures r == Parse(pf, text)
  {
    hide TrimSpace;
    hide Atoi;
    hide Prefix;
    hide LastValue;
    hide FirstThat;
    hide Lines;
    hide HasKey;
    hide ValueText;
    hide Wrap32;
    var metadata := Metadata("", "", NO_TIME, NO_TIME, 0);
    var lines := Lines(text);
    NoLines();
    assert lines[..0] == [];
    var n := 0;
    while n < |lines|
      invariant 0 <= n <= |lines|
      invariant FirstThat(Bad(pf), lines[..n]).Absent?
      invariant metadata == Fields(pf, lines[..n])
    {
      var line := lines[n];
      NextLine(pf, lines, n);
      forall k, k2 | HasKey(k, line) && HasKey(k2, line) ensures k == k2 { OneKeyPerLine(line, k, k2); }
      if HasKey(StatusKey, line) {
        metadata := metadata.(failedStatus := ValueText(StatusKey, line));
      }
      if HasKey(MessageKey, line) {
        metadata := metadata.(failedMessage := ValueText(MessageKey, line));
      }
      if HasKey(TimeKey, line) {
        var time := pf(ValueText(TimeKey, line));
        if time.None? {
          return Err(BadTime);
        }
        metadata := metadata.(time := time.value);
      }
      if HasKey(WallKey, line) {
        var wallTime := pf(ValueText(WallKey, line));
        if wallTime.None? {
          return Err(BadWallTime);
        }
        metadata := metadata.(wallTime := wallTime.value);
      }
      if HasKey(MemoryKey, line) {
        var memory := Atoi(ValueText(MemoryKey, line));
        if memory.None? {
          return Err(BadMemory);
        }
        metadata := metadata.(memory := Wrap32(memory.value));
      }
      n := n + 1;
    }
    assert lines[..n] == lines;
    return Ok(metadata);
  }

  lemma NoLines()
    ensures forall k: Key :: LastValue(k, []) == None
  {
  }

  /** How one more line changes what the lines so far determine. */
  lemma NextLine(pf: FloatParser, lines: seq<string>, n: nat)
    requires n < |lines| && FirstThat(Bad(pf), lines[..n]).Absent?
    ensures Malformed(pf, lines[n]) ==> FirstThat(Bad(pf), lines) == At(n, lines[n])
    ensures !Malformed(pf, lines[n]) ==> FirstThat(Bad(pf), lines[..n + 1]).Absent?
    ensures forall k: Key :: LastValue(k, lines[..n + 1]) ==
                             if HasKey(k, lines[n]) then Some(ValueText(k, lines[n])) else LastValue(k, lines[..n])
  {
    hide TrimSpace;
    hide Atoi;
    hide Prefix;
    assert lines[..n + 1][..n] == lines[..n];
    assert lines[..n + 1][n] == lines[n];
    forall i | 0 <= i < n ensures !Bad(pf)(lines[i]) {
      assert lines[..n][i] == lines[i];
    }
  }

  /** No line has two keys; in particular "time:" does not start a time-wall line. */
  lemma OneKeyPerLine(line: string, k: Key, k2: Key)
    requires HasKey(k, line) && HasKey(k2, line)
    ensures k == k2
  {
    assert Prefix(k)[0] == Prefix(k2)[0] && Prefix(k)[4] == Prefix(k2)[4];
  }

  /** The last line that starts with this, without it and trimmed. */
  ghost predicate LastSays(text: string, start: string, i: nat, said: string) {
    var lines := Lines(text);
    && i < |lines| && start <= lines[i] && said == TrimSpace(lines[i][|start|..])
    && forall j :: i < j < |lines| ==> !(start <= lines[j])
  }

  ghost predicate NoneSays(text: string, start: string) {
    forall i :: 0 <= i < |Lines(text)| ==> !(start <= Lines(text)[i])
  }

  lemma LastIsLastValue(k: Key, text: string)
    ensures NoneSays(text, Prefix(k)) ==> LastValue(k, Lines(text)).None?
    ensures forall i, said :: LastSays(text, Prefix(k), i, said) ==> LastValue(k, Lines(text)) == Some(said)
  {
    hide TrimSpace, Prefix;
    var lines := Lines(text);
    var p := With(k);
    forall i | 0 <= i < |lines| ensures p(lines[i]) <==> Prefix(k) <= lines[i] {}
    forall i: nat, said | LastSays(text, Prefix(k), i, said) ensures LastValue(k, lines) == Some(said) {
      var found := LastThat(p, lines);
      assert p(lines[i]);
      assert found.At? && found.index == i;
    }
  }

  /** Every field is what the last line with its key says; a field without such a line is empty or zero. */
  lemma LastLinesCount(pf: FloatParser, text: string, m: Metadata)
    requires Parse(pf, text) == Ok(m)
    ensures forall i, said :: LastSays(text, "status:", i, said) ==> m.failedStatus == said
    ensures forall i, said :: LastSays(text, "message:", i, said) ==> m.failedMessage == said
    ensures forall i, said :: LastSays(text, "time:", i, said) ==> pf(said) == Some(m.time)
    ensures forall i, said :: LastSays(text, "time-wall:", i, said) ==> pf(said) == Some(m.wallTime)
    ensures forall i, said :: LastSays(text, "max-rss:", i, said) ==>
                                Atoi(said).Some? && m.memory == Wrap32(Atoi(said).value)
    ensures NoneSays(text, "status:") ==> m.failedStatus == ""
    ensures NoneSays(text, "message:") ==> m.failedMessage == ""
    ensures NoneSays(text, "time:") ==> m.time == Number(false, "", 0)
    ensures NoneSays(text, "time-wall:") ==> m.wallTime == Number(false, "", 0)
    ensures NoneSays(text, "max-rss:") ==> m.memory == 0
  {
    hide TrimSpace, Atoi, LastValue, LastSays, NoneSays, Wrap32;
    LastIsLastValue(StatusKey, text);
    LastIsLastValue(MessageKey, text);
    LastIsLastValue(TimeKey, text);
    LastIsLastValue(WallKey, text);
    LastIsLastValue(MemoryKey, text);
    NumbersParse(pf, text);
    hide Lines;
  }

  /** Without a complaint the last number of each key parses. */
  lemma NumbersParse(pf: FloatParser, text: string)
    requires Parse(pf, text).Ok?
    ensures forall k: Key :: LastValue(k, Lines(text)).Some? ==>
              var said := LastValue(k, Lines(text)).value;
              (k.TimeKey? || k.WallKey? ==> pf(said).Some?) && (k.MemoryKey? ==> Atoi(said).Some?)
  {
    hide TrimSpace, Atoi, Prefix;
    var lines := Lines(text);
    forall k: Key | LastValue(k, lines).Some?
      ensures var said := LastValue(k, lines).value;
              (k.TimeKey? || k.WallKey? ==> pf(said).Some?) && (k.MemoryKey? ==> Atoi(said).Some?)
    {
      var found := LastThat(With(k), lines);
      assert !Bad(pf)(lines[found.index]);
    }
  }

  /** The line has a numeric key, and what comes after it is no number. */
  ghost predicate Refused(pf: FloatParser, line: string) {
    || ("time:" <= line && pf(TrimSpace(line[5..])).None?)
    || ("time-wall:" <= line && pf(TrimSpace(line[10..])).None?)
    || ("max-rss:" <= line && Atoi(TrimSpace(line[8..])).None?)
  }

  lemma MalformedIsRefused(pf: FloatParser, line: string)
    ensures Malformed(pf, line) <==> Refused(pf, line)
  {
    hide TrimSpace, Atoi;
    assert |Prefix(TimeKey)| == 5 && |Prefix(WallKey)| == 10 && |Prefix(MemoryKey)| == 8;
  }

  /** A parse fails exactly when some line with a numeric key, not only the last such line, is malformed. */
  lemma FailsIffSomeNumberIsMalformed(pf: FloatParser, text: string)
    ensures Parse(pf, text).Err? <==> exists i :: 0 <= i < |Lines(text)| && Refused(pf, Lines(text)[i])
  {
    hide Malformed, Refused, Lines;
    var lines := Lines(text);
    forall i | 0 <= i < |lines| ensures Bad(pf)(lines[i]) <==> Refused(pf, lines[i]) {
      MalformedIsRefused(pf, lines[i]);
    }
  }

  // ---- only the per-key order of lines matters ----------------------------------------------------

  ghost predicate SamePerKey(a: seq<string>, b: seq<string>) {
    forall k: Key :: Filter(With(k), a) == Filter(With(k), b)
  }

  /** Lines without a key, and the relative order of lines with different keys, have no influence. */
  lemma OnlyPerKeyOrderMatters(pf: FloatParser, a: string, b: string)
    requires SamePerKey(Lines(a), Lines(b))
    ensures Parse(pf, a).Ok? <==> Parse(pf, b).Ok?
    ensures Parse(pf, a).Ok? ==> Parse(pf, a) == Parse(pf, b)
  {
    forall k: Key ensures LastValue(k, Lines(a)) == LastValue(k, Lines(b)) {
      LastOfFilter(With(k), Lines(a));
      LastOfFilter(With(k), Lines(b));
    }
    NoComplaints(pf, Lines(a), Lines(b));
    NoComplaints(pf, Lines(b), Lines(a));
  }

  lemma NoComplaints(pf: FloatParser, a: seq<string>, b: seq<string>)
    requires SamePerKey(a, b)
    ensures FirstThat(Bad(pf), a).Absent? ==> FirstThat(Bad(pf), b).Absent?
  {
    if FirstThat(Bad(pf), b).At? {
      var line := FirstThat(Bad(pf), b).item;
      var k :| line in Filter(With(k), b) by {
        var key := if HasKey(TimeKey, line) then TimeKey else if HasKey(WallKey, line) then WallKey else MemoryKey;
        assert line in Filter(With(key), b);
      }
      assert line in a;
      var i :| 0 <= i < |a| && a[i] == line;
      assert Bad(pf)(a[i]);
    }
  }

  /** Reordering lines whose keys are all different changes nothing. */
  lemma ReorderingDistinctKeys(pf: FloatParser, a: string, b: string)
    requires multiset(Lines(a)) == multiset(Lines(b))
    requires forall k: Key :: |Filter(With(k), Lines(a))| <= 1
    ensures Parse(pf, a).Ok? <==> Parse(pf, b).Ok?
    ensures Parse(pf, a).Ok? ==> Parse(pf, a) == Parse(pf, b)
  {
    forall k: Key ensures Filter(With(k), Lines(a)) == Filter(With(k), Lines(b)) {
      FilterOfPermutation(With(k), Lines(a), Lines(b));
    }
    OnlyPerKeyOrderMatters(pf, a, b);
  }

  // ---- times that are no numbers ------------------------------------------------------------------

  const NAN_REPORT := "time-wall:nan"

  /** strconv.ParseFloat takes "nan" for a number. */
  predicate TakesNan(pf: FloatParser) { pf("nan") == Some(NaN) }

  lemma OneLineIsParsed(pf: FloatParser, line: string, t: Float32)
    requires '\n' !in line && !Malformed(pf, line)
    requires forall k: Key :: HasKey(k, line) <==> k == WallKey
    requires pf(ValueText(WallKey, line)) == Some(t)
    ensures Parse(pf, line) == Ok(Metadata("", "", NO_TIME, t, 0))
  {
    hide HasKey, ValueText, Lines, Malformed, Prefix;
    LinesOfOne(line);
    var lines := [line];
    assert Bad(pf)(lines[0]) == Malformed(pf, line);
    assert FirstThat(Bad(pf), lines).Absent?;
    forall k: Key ensures LastValue(k, lines) == if k == WallKey then Some(ValueText(WallKey, line)) else None {
      assert With(k)(lines[0]) == HasKey(k, line);
      hide FirstThat;
    }
  }

  /** A report may say that the wall time is not a number, and nothing complains. */
  lemma NanIsParsed(pf: FloatParser)
    requires TakesNan(pf)
    ensures Parse(pf, NAN_REPORT) == Ok(Metadata("", "", NO_TIME, NaN, 0))
  {
    assert '\n' !in NAN_REPORT;
    NanLine(pf);
    hide *;
    OneLineIsParsed(pf, NAN_REPORT, NaN);
  }

  lemma NanLine(pf: FloatParser)
    requires TakesNan(pf)
    ensures forall k: Key :: HasKey(k, NAN_REPORT) <==> k == WallKey
    ensures ValueText(WallKey, NAN_REPORT) == "nan"
    ensures !Malformed(pf, NAN_REPORT)
  {
    hide TrimSpace;
    assert NAN_REPORT == Prefix(WallKey) + "nan";
    assert NAN_REPORT[|Prefix(WallKey)|..] == "nan";
    AsciiIsTrimmed("nan");
    TrimmedIsUnchanged("nan");
    forall k: Key ensures HasKey(k, NAN_REPORT) <==> k == WallKey {
      if HasKey(k, NAN_REPORT) { OneKeyPerLine(NAN_REPORT, k, WallKey); }
    }
  }

  // ---- parsing undoes printing --------------------------------------------------------------------

  function Print(m: Metadata, printFloat: Float32 -> string): string {
    Unlines(PrintLines(m, printFloat))
  }

  function PrintLines(m: Metadata, printFloat: Float32 -> string): (ls: seq<string>)
    ensures |ls| == 5
  {
    ["status:" + m.failedStatus, "message:" + m.failedMessage, "time:" + printFloat(m.time),
     "time-wall:" + printFloat(m.wallTime), "max-rss:" + Itoa(m.memory)]
  }

  ghost predicate OneTrimmedLine(s: string) { Trimmed(s) && '\n' !in s }

  /** Parsing inverts the printer on this number. */
  predicate Printable(pf: FloatParser, printFloat: Float32 -> string, x: Float32) {
    pf(printFloat(x)) == Some(x) && Trimmed(printFloat(x)) && '\n' !in printFloat(x)
  }

  lemma KeyedLine(k: Key, v: string)
    requires OneTrimmedLine(v)
    ensures '\n' !in Prefix(k) + v
    ensures HasKey(k, Prefix(k) + v) && ValueText(k, Prefix(k) + v) == v
    ensures forall k2: Key :: k2 != k ==> !HasKey(k2, Prefix(k) + v)
  {
    var line := Prefix(k) + v;
    assert line[|Prefix(k)|..] == v;
    forall k2: Key | k2 != k ensures !HasKey(k2, line) {
      if HasKey(k2, line) { OneKeyPerLine(line, k, k2); }
    }
  }

  lemma PrintedLine(i: nat, m: Metadata, pf: FloatParser, printFloat: Float32 -> string)
    requires OneTrimmedLine(m.failedStatus) && OneTrimmedLine(m.failedMessage)
    requires Printable(pf, printFloat, m.time) && Printable(pf, printFloat, m.wallTime)
    requires i < 5
    ensures var line := PrintLines(m, printFloat)[i];
            && '\n' !in line && !Malformed(pf, line)
            && (forall k: Key :: HasKey(k, line) <==> k == KeyAt(i))
            && ValueText(KeyAt(i), line) == PrintedValue(KeyAt(i), m, printFloat)
  {
    hide TrimSpace;
    hide Trimmed;
    hide Atoi;
    var k := KeyAt(i);
    assert PrintLines(m, printFloat)[i] == Prefix(k) + PrintedValue(k, m, printFloat);
    AtoiOfItoa(m.memory);
    KeyedLine(k, PrintedValue(k, m, printFloat));
  }

  lemma PrintedValueIsLast(k: Key, m: Metadata, pf: FloatParser, printFloat: Float32 -> string)
    requires OneTrimmedLine(m.failedStatus) && OneTrimmedLine(m.failedMessage)
    requires Printable(pf, printFloat, m.time) && Printable(pf, printFloat, m.wallTime)
    ensures LastValue(k, PrintLines(m, printFloat)) == Some(PrintedValue(k, m, printFloat))
  {
    hide Prefix;
    hide TrimSpace;
    hide PrintLines;
    var ls := PrintLines(m, printFloat);
    forall i | 0 <= i < 5 ensures With(k)(ls[i]) <==> k == KeyAt(i) {
      PrintedLine(i, m, pf, printFloat);
    }
    assert With(k)(ls[KeyIndex(k)]);
    PrintedLine(KeyIndex(k), m, pf, printFloat);
  }

  /** Parsing what isolate prints for m gives m back, for any printer that parsing inverts on the two times of m. */
  lemma ParseUndoesPrint(m: Metadata, pf: FloatParser, printFloat: Float32 -> string)
    requires OneTrimmedLine(m.failedStatus) && OneTrimmedLine(m.failedMessage)
    requires Printable(pf, printFloat, m.time) && Printable(pf, printFloat, m.wallTime)
    ensures Parse(pf, Print(m, printFloat)) == Ok(m)
  {
    hide Prefix;
    hide TrimSpace;
    hide Atoi;
    hide PrintLines;
    hide LastValue;
    var ls := PrintLines(m, printFloat);
    AtoiOfItoa(m.memory);
    forall i | 0 <= i < |ls| ensures '\n' !in ls[i] && !Bad(pf)(ls[i]) {
      PrintedLine(i, m, pf, printFloat);
    }
    LinesOfUnlines(ls);
    forall k: Key ensures LastValue(k, ls) == Some(PrintedValue(k, m, printFloat)) {
      PrintedValueIsLast(k, m, pf, printFloat);
    }
  }

  function KeyAt(i: nat): Key {
    if i == 0 then StatusKey else if i == 1 then MessageKey else if i == 2 then TimeKey
    else if i == 3 then WallKey else MemoryKey
  }

  function KeyIndex(k: Key): nat {
    match k case StatusKey => 0 case MessageKey => 1 case TimeKey => 2 case WallKey => 3 case MemoryKey => 4
  }

  function PrintedValue(k: Key, m: Metadata, printFloat: Float32 -> string): string {
    match k
    case StatusKey => m.failedStatus
    case MessageKey => m.failedMessage
    case TimeKey => printFloat(m.time)
    case WallKey => printFloat(m.wallTime)
    case MemoryKey => Itoa(m.memory)
  }
}
