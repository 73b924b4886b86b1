/** Filling in the $RUN_NAME placeholder (internal/setup/setup.go). */
module Replace {

  const RUN_NAME := "$RUN_NAME"

  /** strings.ReplaceAll for a non-empty key: leftmost occurrences that do not overlap. */
  function ReplaceAll(s: string, key: string, value: string): string
    requires key != ""
    decreases |s|
  {
    if s == "" then ""
    else if key <= s then value + ReplaceAll(s[|key|..], key, value)
    else [s[0]] + ReplaceAll(s[1..], key, value)
  }

  function ReplaceEnv(content: string, runName: string): string {
    ReplaceAll(content, RUN_NAME, runName)
  }

  predicate OccursAt(s: string, key: string, i: nat) {
    i + |key| <= |s| && s[i..i + |key|] == key
  }

  ghost predicate Contains(s: string, key: string) {
    exists i: nat :: OccursAt(s, key, i)
  }

  // ---- everything else stays ----------------------------------------------------------------------

  /** The text between the occurrences that are replaced. */
  function Pieces(s: string, key: string): (r: seq<string>)
    requires key != ""
    ensures r != []
    decreases |s|
  {
    if s == "" then [""]
    else if key <= s then [""] + Pieces(s[|key|..], key)
    else
      var rest := Pieces(s[1..], key);
      [[s[0]] + rest[0]] + rest[1..]
  }

  function Join(pieces: seq<string>, separator: string): string
    requires pieces != []
  {
    if |pieces| == 1 then pieces[0] else pieces[0] + separator + Join(pieces[1..], separator)
  }

  lemma JoinEmptyFirst(pieces: seq<string>, separator: string)
    requires pieces != []
    ensures Join([""] + pieces, separator) == separator + Join(pieces, separator)
  {
    assert ([""] + pieces)[1..] == pieces;
  }

  lemma JoinLongerFirst(c: char, pieces: seq<string>, separator: string)
    requires pieces != []
    ensures Join([[c] + pieces[0]] + pieces[1..], separator) == [c] + Join(pieces, separator)
  {
    var longer := [[c] + pieces[0]] + pieces[1..];
    assert longer[1..] == pieces[1..];
    if |pieces| > 1 {
      var rest := Join(pieces[1..], separator);
      assert [c] + pieces[0] + separator + rest == [c] + (pieces[0] + separator + rest);
    }
  }

  /** Only the occurrences change: content and result are the same pieces, in order, around key and around value. */
  lemma {:induction false} OnlyOccurrencesChange(s: string, key: string, value: string)
    requires key != ""
    ensures s == Join(Pieces(s, key), key)
    ensures ReplaceAll(s, key, value) == Join(Pieces(s, key), value)
    decreases |s|
  {
    hide Join;
    if s == "" {
      OnePiece(s, key, value);
    } else if key <= s {
      var rest := s[|key|..];
      OnlyOccurrencesChange(rest, key, value);
      JoinEmptyFirst(Pieces(rest, key), key);
      JoinEmptyFirst(Pieces(rest, key), value);
      assert s == key + rest;
    } else {
      OnlyOccurrencesChange(s[1..], key, value);
      JoinLongerFirst(s[0], Pieces(s[1..], key), key);
      JoinLongerFirst(s[0], Pieces(s[1..], key), value);
      assert s == [s[0]] + s[1..];
    }
  }

  lemma OnePiece(s: string, key: string, value: string)
    ensures Join([s], key) == Join([s], value) == s
  {
  }

  lemma {:induction false} FirstPieceIsPrefix(s: string, key: string)
    requires key != ""
    ensures Pieces(s, key)[0] <= s
    decreases |s|
  {
    if s != "" && !(key <= s) {
      FirstPieceIsPrefix(s[1..], key);
    }
  }

  /** `filled` is content with the value in the place of each "$RUN_NAME", and nothing else changed. */
  ghost predicate FilledIn(content: string, value: string, filled: string) {
    exists pieces: seq<string> ::
      && pieces != [] && content == Join(pieces, "$RUN_NAME") && filled == Join(pieces, value)
      && forall p :: p in pieces ==> !Contains(p, "$RUN_NAME")
  }

  lemma ReplaceEnvFillsIn(content: string, value: string)
    ensures FilledIn(content, value, ReplaceEnv(content, value))
  {
    hide Join, Contains;
    OnlyOccurrencesChange(content, RUN_NAME, value);
    PiecesHoldNoKey(content, RUN_NAME);
    assert content == Join(Pieces(content, RUN_NAME), "$RUN_NAME");
  }

  // ---- no placeholder is left, or formed ----------------------------------------------------------

  /** value ends with a part of key that the text after an occurrence could complete. */
  ghost predicate EndsInPartOf(value: string, key: string) {
    exists j :: 0 < j < |key| && j <= |value| && value[|value| - j..] == key[..j]
  }

  lemma ReplacementShows(s: string, key: string, value: string)
    requires key != "" && value != ""
    ensures key <= s ==> ReplaceAll(s, key, value) != "" && ReplaceAll(s, key, value)[0] == value[0]
  {
  }

  /** Text without a '/' cannot begin inside a replacement, so it was there before. */
  lemma {:induction false} StartsAlike(s: string, key: string, value: string, w: string)
    requires key != "" && value != "" && value[0] == '/' && '/' !in w
    requires w <= ReplaceAll(s, key, value)
    ensures w <= s
    decreases |w|
  {
    if w != "" {
      assert w[0] != '/';
      ReplacementShows(s, key, value);
      StartsAlike(s[1..], key, value, w[1..]);
    }
  }

  /** An occurrence in a + b lies in a, lies in b, or begins in a with a part of key. */
  lemma OccursInConcat(a: string, b: string, key: string, i: nat)
    requires OccursAt(a + b, key, i)
    ensures i + |key| <= |a| ==> OccursAt(a, key, i)
    ensures i >= |a| ==> OccursAt(b, key, i - |a|)
    ensures i < |a| < i + |key| ==> EndsInPartOf(a, key)
  {
    var found := (a + b)[i..i + |key|];
    if i + |key| <= |a| {
      assert a[i..i + |key|] == found;
    } else if i >= |a| {
      assert b[i - |a|..i - |a| + |key|] == found;
    } else {
      var j := |a| - i;
      assert a[|a| - j..] == found[..j];
    }
  }

  lemma {:induction false} NothingLeft(s: string, key: string, value: string, i: nat)
    requires key != "" && '/' !in key && value != "" && value[0] == '/'
    requires !Contains(value, key) && !EndsInPartOf(value, key)
    ensures !OccursAt(ReplaceAll(s, key, value), key, i)
    decreases |s|
  {
    hide EndsInPartOf;
    if s == "" || !OccursAt(ReplaceAll(s, key, value), key, i) {
    } else if key <= s {
      var rest := ReplaceAll(s[|key|..], key, value);
      OccursInConcat(value, rest, key, i);
      if i >= |value| {
        NothingLeft(s[|key|..], key, value, i - |value|);
      }
    } else if i > 0 {
      OccursInConcat([s[0]], ReplaceAll(s[1..], key, value), key, i);
      NothingLeft(s[1..], key, value, i - 1);
    } else {
      StartsAlike(s, key, value, key);
    }
  }

  lemma FirstHoldsNoKey(s: string, key: string, rest: string)
    requires key != "" && s != "" && !(key <= s) && rest <= s[1..] && !Contains(rest, key)
    ensures !Contains([s[0]] + rest, key)
  {
    forall i: nat ensures !OccursAt([s[0]] + rest, key, i) {
      if OccursAt([s[0]] + rest, key, i) {
        OccursInConcat([s[0]], rest, key, i);
      }
    }
  }

  /** No occurrence is overlooked: no piece still holds one. */
  lemma {:induction false} PiecesHoldNoKey(s: string, key: string)
    requires key != ""
    ensures forall p :: p in Pieces(s, key) ==> !Contains(p, key)
    decreases |s|
  {
    hide Contains;
    if s == "" {
      EmptyHoldsNoKey(key);
    } else if key <= s {
      EmptyHoldsNoKey(key);
      PiecesHoldNoKey(s[|key|..], key);
    } else {
      PiecesHoldNoKey(s[1..], key);
      FirstPieceIsPrefix(s[1..], key);
      FirstHoldsNoKey(s, key, Pieces(s[1..], key)[0]);
    }
  }

  lemma EmptyHoldsNoKey(key: string)
    requires key != ""
    ensures !Contains("", key)
  {
  }

  lemma {:induction false} ShortIsUnchanged(s: string, key: string, value: string)
    requires |s| < |key|
    ensures ReplaceAll(s, key, value) == s
  {
    if s != "" {
      ShortIsUnchanged(s[1..], key, value);
      assert [s[0]] + s[1..] == s;
    }
  }

  /** A content that a path meeting neither condition does not rid of its placeholder. */
  ghost function Witness(key: string, value: string): (s: string)
    requires key != "" && (Contains(value, key) || EndsInPartOf(value, key))
    ensures Contains(ReplaceAll(s, key, value), key)
  {
    if Contains(value, key) then
      assert ReplaceAll(key, key, value) == value by { assert key[|key|..] == ""; }
      key
    else
      var j :| 0 < j < |key| && j <= |value| && value[|value| - j..] == key[..j];
      LeftOver(value[..|value| - j], key[..j], key[j..], key, value);
      key + key[j..]
  }

  lemma ReplaceAtFront(rest: string, key: string, value: string)
    requires key != ""
    ensures ReplaceAll(key + rest, key, value) == value + ReplaceAll(rest, key, value)
  {
    assert (key + rest)[|key|..] == rest;
  }

  lemma LeftOver(before: string, start: string, end: string, key: string, value: string)
    requires start != "" && key == start + end && value == before + start
    ensures Contains(ReplaceAll(key + end, key, value), key)
  {
    hide ReplaceAll;
    ReplaceAtFront(end, key, value);
    ShortIsUnchanged(end, key, value);
    assert value + end == before + key;
    assert OccursAt(before + key, key, |before|);
  }

  /**
   * For a path that starts with '/', no content whatever keeps or gains a placeholder exactly when the path holds none
   * and does not end in a part of one.
   */
  lemma NoPlaceholderIsLeftIff(value: string)
    requires value != "" && value[0] == '/'
    ensures (forall s :: !Contains(ReplaceEnv(s, value), "$RUN_NAME"))
            <==> !Contains(value, "$RUN_NAME") && !EndsInPartOf(value, "$RUN_NAME")
  {
    if !Contains(value, RUN_NAME) && !EndsInPartOf(value, RUN_NAME) {
      forall s, i: nat ensures !OccursAt(ReplaceEnv(s, value), RUN_NAME, i) {
        NothingLeft(s, RUN_NAME, value, i);
      }
    } else {
      var s := Witness(RUN_NAME, value);
      assert Contains(ReplaceEnv(s, value), RUN_NAME);
    }
  }

  /** In particular, when the path has no '$'. */
  lemma NoDollarIsEnough(value: string, s: string)
    requires value != "" && value[0] == '/' && '$' !in value
    ensures !Contains(ReplaceEnv(s, value), "$RUN_NAME")
  {
    forall i: nat ensures !OccursAt(value, RUN_NAME, i) {
      if i + |RUN_NAME| <= |value| { assert value[i..i + |RUN_NAME|][0] == value[i] != RUN_NAME[0]; }
    }
    forall j | 0 < j < |RUN_NAME| && j <= |value| ensures value[|value| - j..] != RUN_NAME[..j] {
      assert value[|value| - j..][0] == value[|value| - j] != RUN_NAME[..j][0];
    }
    NoPlaceholderIsLeftIff(value);
  }
}
