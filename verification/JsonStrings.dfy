/** Reading back a JSON string, section 7 of RFC 8259. */
module JsonStrings {
  import opened Json

  /** U+FFFD in UTF-8, which stands for a byte that is not part of a character. */
  const REPLACEMENT := "\U{EF}\U{BF}\U{BD}"

  function HexValue(c: char): (v: nat)
    requires HexDigit(c)
    ensures v < 16
  {
    if c <= '9' then c as int - '0' as int
    else if c <= 'F' then c as int - 'A' as int + 10
    else c as int - 'a' as int + 10
  }

  /** The UTF-8 encoding of a \u escape; a surrogate that stands alone has none. */
  function Utf8(code: nat): string
    requires code < 0x10000
  {
    if code < 0x80 then [code as char]
    else if code < 0x800 then [(0xC0 + code / 0x40) as char, (0x80 + code % 0x40) as char]
    else if 0xD800 <= code < 0xE000 then REPLACEMENT
    else [(0xE0 + code / 0x1000) as char, (0x80 + code / 0x40 % 0x40) as char, (0x80 + code % 0x40) as char]
  }

  function ShortEscape(c: char): char {
    match c
    case 'b' => '\U{08}'
    case 'f' => '\U{0C}'
    case 'n' => '\n'
    case 'r' => '\r'
    case 't' => '\t'
    case _ => c
  }

  /** What the first character of a legal body stands for. */
  function Decoded(t: string): string
    requires FirstCharLength(t) > 0
  {
    var n := FirstCharLength(t);
    if n == 2 then [ShortEscape(t[1])]
    else if n == 6 then
      Utf8(0x1000 * HexValue(t[2]) + 0x100 * HexValue(t[3]) + 0x10 * HexValue(t[4]) + HexValue(t[5]))
    else [t[0]]
  }

  function Unquoted(t: string): string
    requires LegalBody(t)
    decreases |t|
  {
    if t == "" then "" else Decoded(t) + Unquoted(t[FirstCharLength(t)..])
  }

  // ---- decoding undoes encoding -------------------------------------------------------------------

  lemma DecodedOfConcat(a: string, b: string)
    requires FirstCharLength(a) > 0
    ensures FirstCharLength(a + b) == FirstCharLength(a) && Decoded(a + b) == Decoded(a)
  {
    FirstCharOfConcat(a, b);
  }

  lemma {:induction false} UnquotedOfConcat(a: string, b: string)
    requires LegalBody(a) && LegalBody(b)
    ensures LegalBody(a + b) && Unquoted(a + b) == Unquoted(a) + Unquoted(b)
    decreases |a|
  {
    hide FirstCharLength, Decoded;
    LegalConcat(a, b);
    if a == "" {
      assert a + b == b;
    } else {
      var n := FirstCharLength(a);
      DecodedOfConcat(a, b);
      UnquotedOfConcat(a[n..], b);
      assert (a + b)[n..] == a[n..] + b;
    }
  }

  lemma OneCharacter(t: string)
    requires t != "" && FirstCharLength(t) == |t|
    ensures LegalBody(t) && Unquoted(t) == Decoded(t)
  {
    assert t[|t|..] == "";
  }

  lemma EscapeDecodes(c: char)
    requires c < '\U{80}' && !Plain(c)
    ensures LegalBody(Escape(c)) && Unquoted(Escape(c)) == [c]
  {
    hide LegalBody, Unquoted;
    OneEscape(c);
    OneCharacter(Escape(c));
  }

  lemma HexDigits(i: nat)
    requires i < 16
    ensures HexDigit(HEX[i]) && HexValue(HEX[i]) == i
  {
  }

  lemma UnicodeEscape(e: string, c: char)
    requires c < '\U{80}' && e == "\\u00" + [HEX[c as int / 16], HEX[c as int % 16]]
    ensures FirstCharLength(e) == |e| && Decoded(e) == [c]
  {
    hide HexDigit, HexValue;
    HexDigits(0);
    HexDigits(c as int / 16);
    HexDigits(c as int % 16);
    assert e[2] == HEX[0] && e[3] == HEX[0];
  }

  lemma OneEscape(c: char)
    requires c < '\U{80}'
    ensures FirstCharLength(Escape(c)) == |Escape(c)| && Decoded(Escape(c)) == [c]
  {
    var e := "\\u00" + [HEX[c as int / 16], HEX[c as int % 16]];
    if Escape(c) == e {
      hide FirstCharLength, Decoded;
      UnicodeEscape(e, c);
    } else {
      hide HexDigit, HexValue, Utf8;
    }
  }

  lemma {:induction false} NonAsciiDecodes(t: string)
    requires forall i :: 0 <= i < |t| ==> t[i] >= '\U{80}'
    ensures LegalBody(t) && Unquoted(t) == t
  {
    if t != "" {
      NonAsciiDecodes(t[1..]);
      assert [t[0]] + t[1..] == t;
    }
  }

  lemma ReplacementDecodes()
    ensures LegalBody("\\ufffd") && Unquoted("\\ufffd") == REPLACEMENT
  {
    OneCharacter("\\ufffd");
  }

  lemma SeparatorDecodes(last: int)
    requires last == 0xA8 || last == 0xA9
    ensures var t := "\\u202" + [HEX[last - 0xA0]];
            LegalBody(t) && Unquoted(t) == "\U{E2}\U{80}" + [last as char]
  {
    OneCharacter("\\u202" + [HEX[last - 0xA0]]);
  }

  predicate Separator(s: string) {
    Byte(s, 0) == 0xE2 && Byte(s, 1) == 0x80 && (Byte(s, 2) == 0xA8 || Byte(s, 2) == 0xA9)
  }

  /** What the decoder gets: s with every byte that is not part of a character replaced. */
  function Sanitized(s: string): string {
    if s == "" then ""
    else if s[0] < '\U{80}' then [s[0]] + Sanitized(s[1..])
    else if RuneLength(s) == 1 then REPLACEMENT + Sanitized(s[1..])
    else s[..RuneLength(s)] + Sanitized(s[RuneLength(s)..])
  }

  predicate ValidUtf8(s: string) {
    if s == "" then true
    else if s[0] < '\U{80}' then ValidUtf8(s[1..])
    else RuneLength(s) > 1 && ValidUtf8(s[RuneLength(s)..])
  }

  lemma RuneIsNonAscii(s: string)
    requires s != "" && s[0] >= '\U{80}'
    ensures RuneLength(s) > 1 ==> forall i :: 0 <= i < RuneLength(s) ==> s[i] >= '\U{80}'
  {
  }

  lemma {:induction false} QuoteDecodes(s: string)
    ensures LegalBody(QuotedBody(s)) && Unquoted(QuotedBody(s)) == Sanitized(s)
  {
    hide LegalBody, Unquoted, Escape, RuneLength;
    if s == "" {
      NonAsciiDecodes("");
    } else if s[0] < '\U{80}' {
      QuoteDecodes(s[1..]);
      var first := if Plain(s[0]) then [s[0]] else Escape(s[0]);
      if Plain(s[0]) {
        OneCharacter(first);
      } else {
        EscapeDecodes(s[0]);
      }
      UnquotedOfConcat(first, QuotedBody(s[1..]));
    } else {
      var n := RuneLength(s);
      QuoteDecodes(s[n..]);
      if n == 1 {
        ReplacementDecodes();
        UnquotedOfConcat("\\ufffd", QuotedBody(s[1..]));
      } else if n == 3 && Separator(s) {
        SeparatorDecodes(Byte(s, 2));
        UnquotedOfConcat("\\u202" + [HEX[Byte(s, 2) - 0xA0]], QuotedBody(s[3..]));
        assert s[..3] == "\U{E2}\U{80}" + [s[2]];
      } else {
        RuneIsNonAscii(s);
        NonAsciiDecodes(s[..n]);
        UnquotedOfConcat(s[..n], QuotedBody(s[n..]));
      }
    }
  }

  lemma {:induction false} ValidIsUnchanged(s: string)
    requires ValidUtf8(s)
    ensures Sanitized(s) == s
  {
    hide RuneLength;
    if s == "" {
    } else if s[0] < '\U{80}' {
      ValidIsUnchanged(s[1..]);
      assert [s[0]] + s[1..] == s;
    } else {
      var n := RuneLength(s);
      ValidIsUnchanged(s[n..]);
      assert s[..n] + s[n..] == s;
    }
  }

  lemma {:induction false} InvalidGrows(s: string)
    ensures |Sanitized(s)| >= |s|
    ensures !ValidUtf8(s) ==> |Sanitized(s)| > |s|
  {
    hide RuneLength;
    if s == "" {
    } else if s[0] < '\U{80}' {
      InvalidGrows(s[1..]);
    } else {
      InvalidGrows(s[RuneLength(s)..]);
    }
  }

  /** A string survives encoding and decoding exactly when it is valid UTF-8. */
  lemma RoundTripIff(s: string)
    ensures LegalBody(QuotedBody(s))
    ensures Unquoted(QuotedBody(s)) == s <==> ValidUtf8(s)
  {
    hide QuotedBody, Unquoted, Sanitized, ValidUtf8, LegalBody;
    QuoteDecodes(s);
    InvalidGrows(s);
    if ValidUtf8(s) {
      ValidIsUnchanged(s);
    }
  }
}
