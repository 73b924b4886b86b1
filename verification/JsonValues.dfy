/**
 * Reading a whole JSON text (RFC 8259, without white space, which encoding/json does not write), and what is read from
 * the texts that the worker publishes.
 */
module JsonValues {
  import opened Models
  import opened Text
  import opened Json
  import opened JsonStrings

  /** A number stays as it is written. */
  datatype Value =
    | Null
    | Num(text: string)
    | Str(text: string)
    | List(items: seq<Value>)
    | Object(fields: seq<(string, Value)>)

  function NumberLength(t: string): (n: nat)
    ensures n <= |t|
  {
    if t == "" || !Numeric(t[0]) then 0 else 1 + NumberLength(t[1..])
  }

  /** What comes up to the closing quote, decoded, and what comes after it. */
  function ReadString(t: string): (r: Option<(string, string)>)
    ensures r.Some? ==> |r.value.1| < |t|
    decreases |t|
  {
    if t == "" then None
    else if t[0] == '"' then Some(("", t[1..]))
    else if FirstCharLength(t) == 0 then None
    else
      match ReadString(t[FirstCharLength(t)..])
      case None => None
      case Some((s, rest)) => Some((Decoded(t) + s, rest))
  }

  /** The value that t starts with, and what comes after it. */
  function ReadValue(t: string): (r: Option<(Value, string)>)
    ensures r.Some? ==> |r.value.1| < |t|
    decreases |t|, 0
  {
    if t == "" then None
    else if t[0] == '"' then
      match ReadString(t[1..])
      case None => None
      case Some((s, rest)) => Some((Str(s), rest))
    else if "null" <= t then Some((Null, t[4..]))
    else if "[]" <= t then Some((List([]), t[2..]))
    else if t[0] == '[' then
      match ReadItems(t[1..])
      case None => None
      case Some((items, rest)) => Some((List(items), rest))
    else if t[0] == '{' then
      match ReadFields(t[1..])
      case None => None
      case Some((fields, rest)) => Some((Object(fields), rest))
    else if NumberLength(t) > 0 then Some((Num(t[..NumberLength(t)]), t[NumberLength(t)..]))
    else None
  }

  /** At least one item, up to the closing bracket. */
  function ReadItems(t: string): (r: Option<(seq<Value>, string)>)
    ensures r.Some? ==> |r.value.1| < |t|
    decreases |t|, 1
  {
    match ReadValue(t)
    case None => None
    case Some((v, rest)) =>
      if rest == "" then None
      else if rest[0] == ']' then Some(([v], rest[1..]))
      else if rest[0] != ',' then None
      else
        match ReadItems(rest[1..])
        case None => None
        case Some((more, after)) => Some(([v] + more, after))
  }

  /** At least one field, up to the closing brace. */
  function ReadFields(t: string): (r: Option<(seq<(string, Value)>, string)>)
    ensures r.Some? ==> |r.value.1| < |t|
    decreases |t|, 1
  {
    if t == "" || t[0] != '"' then None
    else
      match ReadString(t[1..])
      case None => None
      case Some((key, colon)) =>
        if colon == "" || colon[0] != ':' then None
        else
          match ReadValue(colon[1..])
          case None => None
          case Some((v, rest)) =>
            if rest == "" then None
            else if rest[0] == '}' then Some(([(key, v)], rest[1..]))
            else if rest[0] != ',' then None
            else
              match ReadFields(rest[1..])
              case None => None
              case Some((more, after)) => Some(([(key, v)] + more, after))
  }

  /** The value of a whole text. */
  function Read(t: string): Option<Value> {
    match ReadValue(t)
    case None => None
    case Some((v, rest)) => if rest == "" then Some(v) else None
  }

  // ---- texts that stand for a value ---------------------------------------------------------------

  predicate Stops(rest: string) { rest == "" || rest[0] == ',' || rest[0] == ']' || rest[0] == '}' }

  /** Wherever it stands in a JSON text, t is read as v. */
  ghost predicate Denotes(t: string, v: Value) {
    t != "" && forall rest :: Stops(rest) ==> ReadValue(t + rest) == Some((v, rest))
  }

  lemma DenotedIsRead(t: string, v: Value)
    requires Denotes(t, v)
    ensures Read(t) == Some(v)
  {
    assert Stops("");
    assert ReadValue(t + "") == Some((v, ""));
    assert t + "" == t;
  }

  lemma {:induction false} BodyIsRead(body: string, rest: string)
    requires LegalBody(body)
    ensures ReadString(body + "\"" + rest) == Some((Unquoted(body), rest))
    decreases |body|
  {
    hide FirstCharLength, Decoded;
    var t := body + "\"" + rest;
    if body == "" {
      assert t == "\"" + rest && t[1..] == rest;
    } else {
      var n := FirstCharLength(body);
      assert t == body + ("\"" + rest);
      DecodedOfConcat(body, "\"" + rest);
      NoQuoteFirst(body);
      BodyIsRead(body[n..], rest);
      assert t[n..] == body[n..] + "\"" + rest;
    }
  }

  lemma NoQuoteFirst(t: string)
    requires FirstCharLength(t) > 0
    ensures t != "" && t[0] != '"'
  {
  }

  lemma QuoteDenotes(s: string)
    ensures Denotes(Quote(s), Str(Sanitized(s)))
  {
    hide ReadString, LegalBody, QuotedBody, Unquoted, Sanitized;
    QuoteDecodes(s);
    forall rest | Stops(rest) ensures ReadValue(Quote(s) + rest) == Some((Str(Sanitized(s)), rest)) {
      var t := Quote(s) + rest;
      assert t[1..] == QuotedBody(s) + "\"" + rest;
      BodyIsRead(QuotedBody(s), rest);
    }
  }

  lemma {:induction false} NumberIsWhole(t: string, rest: string)
    requires (forall c :: c in t ==> Numeric(c)) && Stops(rest)
    ensures NumberLength(t + rest) == |t|
  {
    if t == "" {
      assert t + rest == rest;
    } else {
      assert t[0] in t && (t + rest)[1..] == t[1..] + rest;
      NumberIsWhole(t[1..], rest);
    }
  }

  lemma NumberDenotes(t: string)
    requires t != "" && forall c :: c in t ==> Numeric(c)
    ensures Denotes(t, Num(t))
  {
    hide NumberLength;
    forall rest | Stops(rest) ensures ReadValue(t + rest) == Some((Num(t), rest)) {
      NumberIsWhole(t, rest);
      assert t[0] in t && (t + rest)[0] == t[0];
      assert (t + rest)[..|t|] == t && (t + rest)[|t|..] == rest;
    }
  }

  lemma NullDenotes()
    ensures Denotes("null", Null)
  {
    forall rest | Stops(rest) ensures ReadValue("null" + rest) == Some((Null, rest)) {
      assert ("null" + rest)[..4] == "null" && ("null" + rest)[4..] == rest;
    }
  }

  // ---- lists --------------------------------------------------------------------------------------

  ghost predicate AllDenote(ts: seq<string>, vs: seq<Value>) {
    |ts| == |vs| && forall i :: 0 <= i < |ts| ==> Denotes(ts[i], vs[i])
  }

  lemma {:induction false} ItemsAreRead(ts: seq<string>, vs: seq<Value>, rest: string)
    requires ts != [] && AllDenote(ts, vs)
    ensures ReadItems(CommaSeparated(ts) + "]" + rest) == Some((vs, rest))
  {
    hide ReadValue;
    var t := CommaSeparated(ts) + "]" + rest;
    assert Denotes(ts[0], vs[0]);
    if |ts| == 1 {
      var after := "]" + rest;
      assert t == ts[0] + after && Stops(after) && after[1..] == rest;
      assert vs == [vs[0]];
    } else {
      var after := "," + (CommaSeparated(ts[1..]) + "]" + rest);
      assert t == ts[0] + after && Stops(after);
      assert after[1..] == CommaSeparated(ts[1..]) + "]" + rest;
      assert AllDenote(ts[1..], vs[1..]) by {
        forall i | 0 <= i < |ts| - 1 ensures Denotes(ts[1..][i], vs[1..][i]) { assert Denotes(ts[i + 1], vs[i + 1]); }
      }
      ItemsAreRead(ts[1..], vs[1..], rest);
      assert vs == [vs[0]] + vs[1..];
    }
  }

  /** No value starts with a closing bracket. */
  lemma FirstOfItems(ts: seq<string>, vs: seq<Value>)
    requires ts != [] && AllDenote(ts, vs)
    ensures CommaSeparated(ts) != "" && CommaSeparated(ts)[0] != ']'
  {
    assert Denotes(ts[0], vs[0]);
    assert Stops("") && ts[0] + "" == ts[0];
    assert ReadValue(ts[0]).Some?;
  }

  lemma BracketIsRead(body: string, vs: seq<Value>, rest: string)
    requires body != "" && body[0] != ']' && ReadItems(body + "]" + rest) == Some((vs, rest))
    ensures ReadValue("[" + body + "]" + rest) == Some((List(vs), rest))
  {
    hide ReadItems;
    var t := "[" + body + "]" + rest;
    assert t[1..] == body + "]" + rest && t[1] == body[0];
  }

  lemma EmptyListIsRead(rest: string)
    ensures ReadValue("[]" + rest) == Some((List([]), rest))
  {
    assert ("[]" + rest)[..2] == "[]" && ("[]" + rest)[2..] == rest;
  }

  lemma ListDenotes(ts: seq<string>, vs: seq<Value>)
    requires AllDenote(ts, vs)
    ensures Denotes("[" + CommaSeparated(ts) + "]", List(vs))
  {
    hide ReadValue, ReadItems;
    var whole := "[" + CommaSeparated(ts) + "]";
    forall rest | Stops(rest) ensures ReadValue(whole + rest) == Some((List(vs), rest)) {
      if ts == [] {
        assert whole == "[]";
        EmptyListIsRead(rest);
      } else {
        FirstOfItems(ts, vs);
        ItemsAreRead(ts, vs, rest);
        BracketIsRead(CommaSeparated(ts), vs, rest);
      }
    }
  }

  // ---- objects ------------------------------------------------------------------------------------

  type Texts = seq<(string, string)>
  type Fields = seq<(string, Value)>

  /** Keys and the texts of their values, up to the closing brace. */
  function FieldsText(fs: Texts): string
    requires fs != []
  {
    "\"" + fs[0].0 + "\":" + fs[0].1 + if |fs| == 1 then "}" else "," + FieldsText(fs[1..])
  }

  predicate Key(k: string) { forall c :: c in k ==> Plain(c) }

  ghost predicate FieldsDenote(fs: Texts, vs: Fields) {
    |fs| == |vs| && forall i :: 0 <= i < |fs| ==> Key(fs[i].0) && fs[i].0 == vs[i].0 && Denotes(fs[i].1, vs[i].1)
  }

  lemma {:induction false} KeyIsRead(key: string, rest: string)
    requires Key(key)
    ensures ReadString(key + "\"" + rest) == Some((key, rest))
  {
    var t := key + "\"" + rest;
    if key == "" {
      assert t == "\"" + rest && t[1..] == rest;
    } else {
      assert key[0] in key;
      KeyIsRead(key[1..], rest);
      assert t[1..] == key[1..] + "\"" + rest;
      assert FirstCharLength(t) == 1 && Decoded(t) == [key[0]];
      assert key == [key[0]] + key[1..];
    }
  }

  lemma FieldIsRead(key: string, text: string, v: Value, after: string)
    requires Key(key) && Denotes(text, v) && after != "" && (after[0] == '}' || after[0] == ',')
    ensures ReadFields("\"" + key + "\":" + text + after) ==
            if after[0] == '}' then Some(([(key, v)], after[1..]))
            else match ReadFields(after[1..])
                 case None => None
                 case Some((more, rest)) => Some(([(key, v)] + more, rest))
  {
    hide ReadString, ReadValue, Key;
    var t := "\"" + key + "\":" + text + after;
    var colon := ":" + text + after;
    assert t[1..] == key + "\"" + colon;
    KeyIsRead(key, colon);
    assert colon[1..] == text + after && Stops(after);
  }

  lemma {:induction false} FieldsAreRead(fs: Texts, vs: Fields, rest: string)
    requires fs != [] && FieldsDenote(fs, vs)
    ensures ReadFields(FieldsText(fs) + rest) == Some((vs, rest))
  {
    hide ReadFields, Denotes;
    var (key, text) := fs[0];
    if |fs| == 1 {
      var after := "}" + rest;
      assert FieldsText(fs) + rest == "\"" + key + "\":" + text + after;
      FieldIsRead(key, text, vs[0].1, after);
      assert vs == [vs[0]] && after[1..] == rest;
    } else {
      var after := "," + (FieldsText(fs[1..]) + rest);
      assert FieldsText(fs) + rest == "\"" + key + "\":" + text + after;
      FieldIsRead(key, text, vs[0].1, after);
      FieldsAreRead(fs[1..], vs[1..], rest);
      assert after[1..] == FieldsText(fs[1..]) + rest;
      assert vs == [vs[0]] + vs[1..];
    }
  }

  lemma ObjectDenotes(fs: Texts, vs: Fields)
    requires fs != [] && FieldsDenote(fs, vs)
    ensures Denotes("{" + FieldsText(fs), Object(vs))
  {
    hide ReadFields, FieldsText;
    var whole := "{" + FieldsText(fs);
    forall rest | Stops(rest) ensures ReadValue(whole + rest) == Some((Object(vs), rest)) {
      FieldsAreRead(fs, vs, rest);
      assert (whole + rest)[1..] == FieldsText(fs) + rest;
    }
  }
}
