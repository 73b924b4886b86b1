/** The parts of Go's strings and strconv packages that the modelled code calls. */
module Text {
  import opened Models

  // ---- strings.Split on newline, and its inverse -------------------------------------------------

  /** The pieces of s between newlines; never empty. */
  function Lines(s: string): (r: seq<string>)
    ensures r != []
  {
    if s == "" then [""]
    else
      var rest := Lines(s[1..]);
      if s[0] == '\n' then [""] + rest else [[s[0]] + rest[0]] + rest[1..]
  }

  function Unlines(ls: seq<string>): string
    requires ls != []
  {
    if |ls| == 1 then ls[0] else ls[0] + "\n" + Unlines(ls[1..])
  }

  lemma {:induction false} LinesOfOne(s: string)
    requires '\n' !in s
    ensures Lines(s) == [s]
  {
    if s != "" {
      LinesOfOne(s[1..]);
      assert [s[0]] + s[1..] == s;
    }
  }

  lemma {:induction false} LinesOfJoin(a: string, rest: string)
    requires '\n' !in a
    ensures Lines(a + "\n" + rest) == [a] + Lines(rest)
  {
    var s := a + "\n" + rest;
    if a == "" {
      assert s[1..] == rest;
    } else {
      LinesOfJoin(a[1..], rest);
      assert s[1..] == a[1..] + "\n" + rest;
      assert [a[0]] + a[1..] == a;
    }
  }

  lemma {:induction false} LinesOfUnlines(ls: seq<string>)
    requires ls != [] && forall l :: l in ls ==> '\n' !in l
    ensures Lines(Unlines(ls)) == ls
  {
    if |ls| == 1 {
      LinesOfOne(ls[0]);
    } else {
      LinesOfUnlines(ls[1..]);
      LinesOfJoin(ls[0], Unlines(ls[1..]));
    }
  }

  // ---- strings.TrimSpace -------------------------------------------------------------------------

  predicate AsciiSpace(c: char) { '\t' <= c <= '\r' || c == ' ' }

  // The white space characters beyond ASCII, in UTF-8.

  predicate WideSpace2(a: char, b: char) { a == '\U{C2}' && (b == '\U{85}' || b == '\U{A0}') }

  predicate WideSpace3(a: char, b: char, c: char) {
    || (a == '\U{E1}' && b == '\U{9A}' && c == '\U{80}')
    || (a == '\U{E2}' && b == '\U{80}'
        && ('\U{80}' <= c <= '\U{8A}' || c == '\U{A8}' || c == '\U{A9}' || c == '\U{AF}'))
    || (a == '\U{E2}' && b == '\U{81}' && c == '\U{9F}')
    || (a == '\U{E3}' && b == '\U{80}' && c == '\U{80}')
  }

  /** The length of the white space character at the front of s; 0 if there is none. */
  function LeadingSpace(s: string): (n: nat)
    ensures n <= |s|
  {
    if s == "" then 0
    else if AsciiSpace(s[0]) then 1
    else if |s| >= 2 && WideSpace2(s[0], s[1]) then 2
    else if |s| >= 3 && WideSpace3(s[0], s[1], s[2]) then 3
    else 0
  }

  /** The length of the white space character at the end of s; 0 if there is none. */
  function TrailingSpace(s: string): (n: nat)
    ensures n <= |s|
  {
    var n := |s|;
    if n == 0 then 0
    else if AsciiSpace(s[n - 1]) then 1
    else if n >= 2 && WideSpace2(s[n - 2], s[n - 1]) then 2
    else if n >= 3 && WideSpace3(s[n - 3], s[n - 2], s[n - 1]) then 3
    else 0
  }

  function TrimSpace(s: string): (r: string)
    ensures Trimmed(r)
    decreases |s|
  {
    if LeadingSpace(s) > 0 then TrimSpace(s[LeadingSpace(s)..])
    else if TrailingSpace(s) > 0 then TrimSpace(s[..|s| - TrailingSpace(s)])
    else s
  }

  predicate Trimmed(s: string) {
    LeadingSpace(s) == 0 && TrailingSpace(s) == 0
  }

  /** A white space character: ASCII, or one of those of Unicode in UTF-8. */
  predicate IsSpace(c: string) {
    || (|c| == 1 && AsciiSpace(c[0]))
    || (|c| == 2 && WideSpace2(c[0], c[1]))
    || (|c| == 3 && WideSpace3(c[0], c[1], c[2]))
  }

  ghost predicate AllSpace(cs: seq<string>) {
    forall i :: 0 <= i < |cs| ==> IsSpace(cs[i])
  }

  function Joined(cs: seq<string>): string {
    if cs == [] then "" else cs[0] + Joined(cs[1..])
  }

  lemma {:induction false} JoinedOneMore(cs: seq<string>, c: string)
    ensures Joined(cs + [c]) == Joined(cs) + c
  {
    if cs == [] {
      assert [c][1..] == [];
    } else {
      assert (cs + [c])[1..] == cs[1..] + [c];
      JoinedOneMore(cs[1..], c);
    }
  }

  lemma FrontIsSpace(s: string)
    requires LeadingSpace(s) > 0
    ensures IsSpace(s[..LeadingSpace(s)])
  {
    hide AsciiSpace, WideSpace2, WideSpace3;
  }

  lemma BackIsSpace(s: string)
    requires TrailingSpace(s) > 0
    ensures IsSpace(s[|s| - TrailingSpace(s)..])
  {
    hide AsciiSpace, WideSpace2, WideSpace3;
  }

  lemma Flanked(a: string, x: string, s: string, y: string, b: string)
    ensures (a + x) + s + (y + b) == a + (x + s + y) + b
  {
  }

  /** Trimming drops white space characters from both ends, as long as there are any, and nothing else. */
  lemma {:induction false} OnlySpaceIsTrimmed(s: string) returns (before: seq<string>, after: seq<string>)
    ensures s == Joined(before) + TrimSpace(s) + Joined(after) && AllSpace(before) && AllSpace(after)
    ensures Trimmed(TrimSpace(s))
    decreases |s|
  {
    hide LeadingSpace, TrailingSpace, IsSpace, Joined;
    var (m, n) := (LeadingSpace(s), TrailingSpace(s));
    if m > 0 {
      FrontIsSpace(s);
      var rest;
      rest, after := OnlySpaceIsTrimmed(s[m..]);
      FirstJoined(s[..m], rest);
      Flanked(s[..m], Joined(rest), TrimSpace(s[m..]), Joined(after), "");
      before := [s[..m]] + rest;
    } else if n > 0 {
      BackIsSpace(s);
      var k, rest := |s| - n, [];
      before, rest := OnlySpaceIsTrimmed(s[..k]);
      JoinedOneMore(rest, s[k..]);
      Flanked("", Joined(before), TrimSpace(s[..k]), Joined(rest), s[k..]);
      after := rest + [s[k..]];
    } else {
      before, after := [], [];
      NothingJoined();
    }
  }

  lemma FirstJoined(c: string, cs: seq<string>)
    ensures Joined([c] + cs) == c + Joined(cs)
  {
    assert ([c] + cs)[1..] == cs;
  }

  lemma NothingJoined()
    ensures Joined([]) == ""
  {
  }

  lemma AsciiIsTrimmed(s: string)
    requires s != ""
    requires s[0] < '\U{80}' && !AsciiSpace(s[0]) && s[|s| - 1] < '\U{80}' && !AsciiSpace(s[|s| - 1])
    ensures Trimmed(s)
  {
  }

  lemma TrimmedIsUnchanged(s: string)
    requires Trimmed(s)
    ensures TrimSpace(s) == s
  {
  }

  // ---- strconv.Atoi and Itoa ---------------------------------------------------------------------

  predicate IsDigit(c: char) { '0' <= c <= '9' }

  /** What the numbers of JSON are written with. */
  predicate Numeric(c: char) { IsDigit(c) || c == '.' || c == '-' || c == '+' || c == 'e' || c == 'E' }

  predicate AllDigits(s: string) { forall i :: 0 <= i < |s| ==> IsDigit(s[i]) }

  function Natural(s: string): nat
    requires AllDigits(s)
  {
    if s == "" then 0 else 10 * Natural(s[..|s| - 1]) + (s[|s| - 1] as int - '0' as int)
  }

  const MaxInt64 := 0x7fff_ffff_ffff_ffff

  /** None where Atoi reports an error: no digits, a stray character, or a value outside int64. */
  function Atoi(s: string): Option<int> {
    var neg := s != "" && s[0] == '-';
    var digits := if s != "" && s[0] in {'-', '+'} then s[1..] else s;
    if digits == "" || !AllDigits(digits) then None
    else
      var n: int := Natural(digits);
      var v: int := if neg then -n else n;
      if -MaxInt64 - 1 <= v <= MaxInt64 then Some(v) else None
  }

  /** n divided by ten, by subtraction. */
  function Tenth(n: nat): (q: nat)
    ensures 10 * q <= n < 10 * q + 10
  {
    if n < 10 then 0 else 1 + Tenth(n - 10)
  }

  function Digits(n: nat): (r: string)
    ensures r != "" && AllDigits(r) && Natural(r) == n
    ensures n > 0 ==> r[0] != '0'
  {
    var d := [('0' as int + n - 10 * Tenth(n)) as char];
    if n < 10 then
      assert Natural(d[..0]) == 0;
      d
    else
      var r := Digits(Tenth(n)) + d;
      assert r[..|r| - 1] == Digits(Tenth(n));
      r
  }

  function Itoa(n: int): string {
    if n < 0 then "-" + Digits(-n) else Digits(n)
  }

  /** A printed number is read back, as long as it fits an int64. */
  lemma AtoiOfItoa(n: int)
    ensures Atoi(Itoa(n)) == if -0x8000_0000_0000_0000 <= n < 0x8000_0000_0000_0000 then Some(n) else None
    ensures Trimmed(Itoa(n)) && '\n' !in Itoa(n)
  {
    hide LeadingSpace, TrailingSpace;
    var s := Itoa(n);
    var d := Digits(if n < 0 then -n else n);
    assert forall c :: c in d ==> IsDigit(c);
    assert IsDigit(d[|d| - 1]) && IsDigit(d[0]);
    AsciiIsTrimmed(s);
    if n < 0 {
      assert s[1..] == d;
    }
  }

  /** A number with d decimal digits is at least 10 to the d-1; used to bound printed lengths. */
  lemma {:induction false} DigitsLength(n: nat, limit: nat, power: nat)
    requires n < power && power == Pow10(limit) && limit > 0
    ensures |Digits(n)| <= limit
  {
    assert power == 10 * Pow10(limit - 1);
    if n >= 10 && limit > 1 {
      DigitsLength(Tenth(n), limit - 1, Pow10(limit - 1));
    }
  }

  function Pow10(n: nat): nat {
    if n == 0 then 1 else 10 * Pow10(n - 1)
  }
}
