/**
 * `_extract_mission_code` (src/services/chatbot.py): the first mission code
 * written in a question, in any of the spellings `M-2026-002`, `m2026-002`
 * or `M 2026 002`, rewritten as `M-dddd-ddd`.
 *
 * The pattern is `\b(m)\s*[- ]?\s*(\d{4})\s*[- ]?\s*(\d{3})\b`, searched
 * case-insensitively. A match starting at a given position is unique: each
 * separator `\s*[- ]?\s*` must be followed by a digit, and a space taken by
 * `[- ]` instead of `\s*` leaves the same end, so the separator ends after
 * the whitespace, one optional `-`, and the whitespace after it. The search
 * returns the match at the leftmost position that has one.
 */
module MissionCodes {
  import opened Wrappers
  import opened Text

  predicate AllDigits(s: string) {
    forall k :: 0 <= k < |s| ==> IsDigit(s[k])
  }

  /** A code as the extractor writes it: `M-`, four digits, `-`, three digits. */
  predicate IsCanonicalCode(c: string) {
    |c| == 10 && c[0] == 'M' && c[1] == '-' && AllDigits(c[2..6]) && c[6] == '-' && AllDigits(c[7..])
  }

  /** The position after the whitespace starting at `i`. */
  function SkipSpaces(s: string, i: nat): (j: nat)
    requires i <= |s|
    ensures i <= j <= |s|
    ensures forall k :: i <= k < j ==> IsSpace(s[k])
    ensures j < |s| ==> !IsSpace(s[j])
    decreases |s| - i
  {
    if i < |s| && IsSpace(s[i]) then SkipSpaces(s, i + 1) else i
  }

  /** Where the separator `\s*[- ]?\s*` starting at `i` ends when a digit follows it. */
  function SeparatorEnd(s: string, i: nat): (j: nat)
    requires i <= |s|
    ensures i <= j <= |s|
    ensures j < |s| ==> !IsSpace(s[j])
  {
    var a := SkipSpaces(s, i);
    if a < |s| && s[a] == '-' then SkipSpaces(s, a + 1) else a
  }

  /** The code the pattern matches starting at position `i`, if it matches there. */
  function MatchAt(s: string, i: nat): (r: Option<string>)
    ensures r.Some? ==> IsCanonicalCode(r.value)
  {
    if i < |s| && (s[i] == 'm' || s[i] == 'M') && (i == 0 || !IsWordChar(s[i - 1])) then
      var p := SeparatorEnd(s, i + 1);
      if p + 4 <= |s| && AllDigits(s[p..p + 4]) then
        var q := SeparatorEnd(s, p + 4);
        if q + 3 <= |s| && AllDigits(s[q..q + 3]) && (q + 3 == |s| || !IsWordChar(s[q + 3])) then
          var c := "M-" + s[p..p + 4] + "-" + s[q..q + 3];
          assert c[2..6] == s[p..p + 4] && c[7..] == s[q..q + 3];
          Some(c)
        else None
      else None
    else None
  }

  /** `re.search` from position `i`: the match at the leftmost position that has one. */
  function SearchFrom(s: string, i: nat): (r: Option<string>)
    requires i <= |s|
    ensures r.Some? ==> IsCanonicalCode(r.value)
    decreases |s| - i
  {
    if i == |s| then None
    else if MatchAt(s, i).Some? then MatchAt(s, i)
    else SearchFrom(s, i + 1)
  }

  function ExtractMissionCode(text: string): (r: Option<string>)
    ensures r.Some? ==> IsCanonicalCode(r.value)
  {
    SearchFrom(text, 0)
  }

  /** The match at every position of `s`. */
  function Hits(s: string): (ms: seq<Option<string>>)
    ensures |ms| == |s|
    ensures forall j :: 0 <= j < |s| ==> ms[j] == MatchAt(s, j)
  {
    seq(|s|, j requires 0 <= j < |s| => MatchAt(s, j))
  }

  /** The first present entry of `ms` at or after `i`. */
  function FirstHit(ms: seq<Option<string>>, i: nat): Option<string>
    requires i <= |ms|
    decreases |ms| - i
  {
    if i == |ms| then None else if ms[i].Some? then ms[i] else FirstHit(ms, i + 1)
  }

  lemma {:induction false} FirstHitIsLeftmost(ms: seq<Option<string>>, i: nat)
    requires i <= |ms|
    ensures FirstHit(ms, i).None? <==> forall j :: i <= j < |ms| ==> ms[j].None?
    ensures FirstHit(ms, i).Some? ==>
      exists j :: i <= j < |ms| && ms[j] == FirstHit(ms, i) && forall k :: i <= k < j ==> ms[k].None?
    decreases |ms| - i
  {
    if i < |ms| && ms[i].None? {
      FirstHitIsLeftmost(ms, i + 1);
      if FirstHit(ms, i).Some? {
        var j :| i + 1 <= j < |ms| && ms[j] == FirstHit(ms, i + 1) && forall k :: i + 1 <= k < j ==> ms[k].None?;
        assert forall k :: i <= k < j ==> ms[k].None?;
      }
    }
  }

  /** The search from `i` is the first hit at or after `i`. */
  lemma {:induction false} SearchIsFirstHit(s: string, i: nat)
    requires i <= |s|
    ensures SearchFrom(s, i) == FirstHit(Hits(s), i)
    decreases |s| - i
  {
    if i < |s| {
      assert Hits(s)[i] == MatchAt(s, i);
      SearchIsFirstHit(s, i + 1);
    }
  }

  /** The search from `i` finds the leftmost match at or after `i`, and nothing when there is none. */
  lemma SearchFromIsLeftmost(s: string, i: nat)
    requires i <= |s|
    ensures SearchFrom(s, i).None? <==> forall j :: i <= j < |s| ==> MatchAt(s, j).None?
    ensures SearchFrom(s, i).Some? ==>
      exists j :: i <= j < |s| && MatchAt(s, j) == SearchFrom(s, i) && forall k :: i <= k < j ==> MatchAt(s, k).None?
  {
    var ms := Hits(s);
    SearchIsFirstHit(s, i);
    FirstHitIsLeftmost(ms, i);
    if SearchFrom(s, i).Some? {
      var j :| i <= j < |ms| && ms[j] == FirstHit(ms, i) && forall k :: i <= k < j ==> ms[k].None?;
      assert MatchAt(s, j) == SearchFrom(s, i);
    }
  }

  /**
   * The extracted code is the one matched at the leftmost position where
   * the pattern matches; there is none exactly when it matches nowhere.
   */
  lemma ExtractIsLeftmostMatch(text: string)
    ensures ExtractMissionCode(text).None? <==> forall j :: 0 <= j < |text| ==> MatchAt(text, j).None?
    ensures ExtractMissionCode(text).Some? ==>
      exists j :: 0 <= j < |text| && MatchAt(text, j) == ExtractMissionCode(text)
        && forall k :: 0 <= k < j ==> MatchAt(text, k).None?
  {
    SearchFromIsLeftmost(text, 0);
  }

  /** A code already written the canonical way is extracted as itself. */
  lemma CanonicalCodeRoundTrip(c: string)
    requires IsCanonicalCode(c)
    ensures ExtractMissionCode(c) == Some(c)
  {
    assert c[2..6][0] == c[2] && IsDigit(c[2]);
    assert c[7..][0] == c[7] && IsDigit(c[7]);
    assert SkipSpaces(c, 1) == 1;
    assert SkipSpaces(c, 2) == 2;
    assert SeparatorEnd(c, 1) == 2;
    assert c[2..6] == c[2..][..4];
    assert SkipSpaces(c, 6) == 6;
    assert SkipSpaces(c, 7) == 7;
    assert SeparatorEnd(c, 6) == 7;
    assert c == "M-" + c[2..6] + "-" + c[7..10];
  }

  /** The three spellings of a code the extractor is meant to accept give the same code. */
  lemma AcceptedSpellings()
    ensures ExtractMissionCode("M-2026-002") == Some("M-2026-002")
    ensures ExtractMissionCode("m2026-002") == Some("M-2026-002")
    ensures ExtractMissionCode("M 2026 002") == Some("M-2026-002")
  {
    CanonicalCodeRoundTrip("M-2026-002");
    CompactSpelling();
    SpacedSpelling();
  }

  lemma CompactSpelling()
    ensures ExtractMissionCode("m2026-002") == Some("M-2026-002")
  {
    var a := "m2026-002";
    assert SkipSpaces(a, 1) == 1 && SeparatorEnd(a, 1) == 1;
    assert a[1..5] == "2026" && AllDigits(a[1..5]);
    assert SkipSpaces(a, 5) == 5 && SkipSpaces(a, 6) == 6 && SeparatorEnd(a, 5) == 6;
    assert a[6..9] == "002" && AllDigits(a[6..9]);
    assert "M-" + a[1..5] + "-" + a[6..9] == "M-2026-002";
    assert MatchAt(a, 0) == Some("M-2026-002");
  }

  lemma SpacedSpelling()
    ensures ExtractMissionCode("M 2026 002") == Some("M-2026-002")
  {
    var b := "M 2026 002";
    assert SkipSpaces(b, 2) == 2 && SkipSpaces(b, 1) == 2 && SeparatorEnd(b, 1) == 2;
    assert b[2..6] == "2026" && AllDigits(b[2..6]);
    assert SkipSpaces(b, 7) == 7 && SkipSpaces(b, 6) == 7 && SeparatorEnd(b, 6) == 7;
    assert b[7..10] == "002" && AllDigits(b[7..10]);
    assert "M-" + b[2..6] + "-" + b[7..10] == "M-2026-002";
    assert MatchAt(b, 0) == Some("M-2026-002");
  }

  /**
   * A match starts only at an `m` or `M` with a word boundary before it: an
   * `m` inside a word, such as the one in "am2026002", starts no code.
   */
  lemma NoCodeInsideWord(s: string, i: nat)
    ensures 0 < i < |s| && IsWordChar(s[i - 1]) ==> MatchAt(s, i).None?
    ensures MatchAt(s, i).Some? ==> i < |s| && (s[i] == 'm' || s[i] == 'M') && (i == 0 || !IsWordChar(s[i - 1]))
  {
  }
}
