/**
 * The string operations the chatbot relies on, restricted to what the model
 * needs: a fixed whitespace set (the ASCII characters Python's `str.strip()`
 * and the regex class `\s` both treat as whitespace), ASCII case mapping,
 * substring search (Python's `in` on strings) and `str.split(" ")`.
 */
module Text {

  /**
   * Space, tab, newline, vertical tab, form feed, carriage return and the
   * four information separators U+001C to U+001F: the ASCII characters
   * `str.isspace()` accepts, which are also those `\s` matches.
   */
  predicate IsSpace(c: char) {
    c == ' ' || c == '\t' || c == '\n' || c == '\r' || c == '\U{000B}' || c == '\U{000C}'
    || ('\U{001C}' <= c <= '\U{001F}')
  }

  predicate IsUpper(c: char) { 'A' <= c <= 'Z' }

  predicate IsLowerLetter(c: char) { 'a' <= c <= 'z' }

  predicate IsDigit(c: char) { '0' <= c <= '9' }

  /** A character the regex assertion `\b` treats as part of a word. */
  predicate IsWordChar(c: char) { IsDigit(c) || IsUpper(c) || IsLowerLetter(c) || c == '_' }

  /** No upper-case letter anywhere in `s`. */
  predicate IsLowercase(s: string) {
    forall i :: 0 <= i < |s| ==> !IsUpper(s[i])
  }

  function LowerChar(c: char): (r: char)
    ensures !IsUpper(r)
    ensures IsSpace(r) <==> IsSpace(c)
    ensures r == ' ' <==> c == ' '
    ensures !IsUpper(c) ==> r == c
  {
    if IsUpper(c) then (c as int + 32) as char else c
  }

  function UpperChar(c: char): (r: char)
    ensures !IsLowerLetter(r)
    ensures !IsLowerLetter(c) ==> r == c
  {
    if IsLowerLetter(c) then (c as int - 32) as char else c
  }

  /** Python's `str.lower()` on ASCII letters. */
  function Lower(s: string): (r: string)
    ensures |r| == |s|
  {
    if s == [] then [] else [LowerChar(s[0])] + Lower(s[1..])
  }

  /** Lower-casing works character by character and leaves a lower-case string as it is. */
  lemma {:induction false} LowerSpec(s: string)
    ensures forall i :: 0 <= i < |s| ==> Lower(s)[i] == LowerChar(s[i])
    ensures IsLowercase(Lower(s))
    ensures IsLowercase(s) ==> Lower(s) == s
  {
    if s != [] {
      LowerSpec(s[1..]);
      assert forall i :: 1 <= i < |s| ==> Lower(s)[i] == Lower(s[1..])[i - 1];
    }
  }

  /** Lower-casing keeps whitespace where it is, so collapsed whitespace stays collapsed. */
  lemma LowerKeepsSpaces(s: string)
    ensures forall i :: 0 <= i < |s| ==> (Lower(s)[i] == ' ' <==> s[i] == ' ')
    ensures forall i :: 0 <= i < |s| ==> (IsSpace(Lower(s)[i]) <==> IsSpace(s[i]))
    ensures SpacesCollapsed(s) ==> SpacesCollapsed(Lower(s))
  {
    LowerSpec(s);
  }

  /** SQLite's `UPPER()`, which maps only ASCII letters. */
  function Upper(s: string): (r: string)
    ensures |r| == |s|
  {
    if s == [] then [] else [UpperChar(s[0])] + Upper(s[1..])
  }

  /** Drops the leading whitespace. */
  function TrimLeft(s: string): (r: string)
    ensures |r| <= |s|
  {
    if s != [] && IsSpace(s[0]) then TrimLeft(s[1..]) else s
  }

  lemma {:induction false} TrimLeftSpec(s: string)
    ensures TrimLeft(s) == s[|s| - |TrimLeft(s)|..]
    ensures TrimLeft(s) != [] ==> !IsSpace(TrimLeft(s)[0])
    ensures forall i :: 0 <= i < |s| - |TrimLeft(s)| ==> IsSpace(s[i])
  {
    if s != [] && IsSpace(s[0]) {
      TrimLeftSpec(s[1..]);
    }
  }

  /** Drops the trailing whitespace. */
  function TrimRight(s: string): (r: string)
    ensures |r| <= |s|
  {
    if s != [] && IsSpace(s[|s| - 1]) then TrimRight(s[..|s| - 1]) else s
  }

  lemma {:induction false} TrimRightSpec(s: string)
    ensures TrimRight(s) == s[..|TrimRight(s)|]
    ensures TrimRight(s) != [] ==> !IsSpace(TrimRight(s)[|TrimRight(s)| - 1])
    ensures forall i :: |TrimRight(s)| <= i < |s| ==> IsSpace(s[i])
  {
    if s != [] && IsSpace(s[|s| - 1]) {
      TrimRightSpec(s[..|s| - 1]);
    }
  }

  /** Python's `str.strip()`. */
  function Strip(s: string): (r: string)
    ensures |r| <= |s|
  {
    TrimRight(TrimLeft(s))
  }

  /**
   * Neither end of a stripped string is whitespace; a string with no
   * whitespace at its ends is left as it is; collapsed whitespace stays
   * collapsed.
   */
  lemma StripSpec(s: string)
    ensures Strip(s) != [] ==> !IsSpace(Strip(s)[0]) && !IsSpace(Strip(s)[|Strip(s)| - 1])
    ensures (s == [] || (!IsSpace(s[0]) && !IsSpace(s[|s| - 1]))) ==> Strip(s) == s
    ensures SpacesCollapsed(s) ==> SpacesCollapsed(Strip(s))
  {
    var t := TrimLeft(s);
    var r := TrimRight(t);
    TrimLeftSpec(s);
    TrimRightSpec(t);
    assert r != [] ==> r[0] == t[0];
    assert s != [] && !IsSpace(s[0]) ==> t == s;
    assert t != [] && !IsSpace(t[|t| - 1]) ==> r == t;
  }

  /** The whitespace in `s` is single spaces, never two in a row. */
  predicate SpacesCollapsed(s: string) {
    && (forall i :: 0 <= i < |s| ==> (IsSpace(s[i]) ==> s[i] == ' '))
    && (forall i :: 0 <= i < |s| - 1 ==> !(s[i] == ' ' && s[i + 1] == ' '))
  }

  /**
   * `re.sub(r"\s+", " ", s)`: every maximal run of whitespace becomes one
   * space. `inRun` says that the character before `s` was whitespace that has
   * already been written out as a space.
   */
  function CollapseRuns(s: string, inRun: bool): (r: string)
    ensures |r| <= |s|
  {
    if s == [] then []
    else if IsSpace(s[0]) then
      var rest := CollapseRuns(s[1..], true);
      if inRun then rest else [' '] + rest
    else [s[0]] + CollapseRuns(s[1..], false)
  }

  /**
   * The result's whitespace is collapsed, it keeps a first and last
   * character that are not whitespace, and it has no upper-case letter the
   * input did not have.
   */
  lemma {:induction false} CollapseRunsSpec(s: string, inRun: bool)
    ensures SpacesCollapsed(CollapseRuns(s, inRun))
    ensures inRun && CollapseRuns(s, inRun) != [] ==> CollapseRuns(s, inRun)[0] != ' '
    ensures s != [] && !IsSpace(s[0]) ==> CollapseRuns(s, inRun) != [] && CollapseRuns(s, inRun)[0] == s[0]
    ensures s != [] && !IsSpace(s[|s| - 1]) ==>
      CollapseRuns(s, inRun) != [] && CollapseRuns(s, inRun)[|CollapseRuns(s, inRun)| - 1] == s[|s| - 1]
    ensures IsLowercase(s) ==> IsLowercase(CollapseRuns(s, inRun))
  {
    if s != [] {
      var r := CollapseRuns(s, inRun);
      if IsSpace(s[0]) {
        var rest := CollapseRuns(s[1..], true);
        CollapseRunsSpec(s[1..], true);
        assert s[1..] != [] ==> s[1..][|s[1..]| - 1] == s[|s| - 1];
        if !inRun {
          assert r == [' '] + rest;
          assert forall i :: 1 <= i < |r| ==> r[i] == rest[i - 1];
        }
      } else {
        var rest := CollapseRuns(s[1..], false);
        CollapseRunsSpec(s[1..], false);
        assert s[1..] != [] ==> s[1..][|s[1..]| - 1] == s[|s| - 1];
        assert r == [s[0]] + rest;
        assert forall i :: 1 <= i < |r| ==> r[i] == rest[i - 1];
      }
    }
  }

  function Collapse(s: string): (r: string)
    ensures |r| <= |s|
  {
    CollapseRuns(s, false)
  }

  /** A string whose whitespace is already collapsed is left as it is. */
  lemma {:induction false} CollapseRunsFixpoint(s: string, inRun: bool)
    requires SpacesCollapsed(s)
    requires inRun ==> s == [] || s[0] != ' '
    ensures CollapseRuns(s, inRun) == s
  {
    if s != [] {
      assert SpacesCollapsed(s[1..]) by {
        forall i | 0 <= i < |s[1..]| - 1 ensures !(s[1..][i] == ' ' && s[1..][i + 1] == ' ') {
          assert s[1..][i] == s[i + 1] && s[1..][i + 1] == s[i + 2];
        }
      }
      if IsSpace(s[0]) {
        assert |s| > 1 ==> s[1] != ' ';
        CollapseRunsFixpoint(s[1..], true);
      } else {
        CollapseRunsFixpoint(s[1..], false);
      }
    }
  }

  /** Python's `k in s` for strings: `k` occurs in `s` as a contiguous piece. */
  predicate Contains(s: string, k: string)
    decreases |s|
  {
    k <= s || (s != [] && Contains(s[1..], k))
  }

  /** An occurrence at a given position gives containment. */
  lemma {:induction false} ContainsAt(s: string, k: string, i: nat)
    requires i + |k| <= |s| && s[i..i + |k|] == k
    ensures Contains(s, k)
  {
    if i > 0 {
      assert s[1..][i - 1..i - 1 + |k|] == s[i..i + |k|];
      ContainsAt(s[1..], k, i - 1);
    } else {
      assert k == s[..|k|];
    }
  }

  /** Containment gives an occurrence at some position. */
  lemma {:induction false} ContainsWitness(s: string, k: string) returns (i: nat)
    requires Contains(s, k)
    ensures i + |k| <= |s| && s[i..i + |k|] == k
  {
    if k <= s {
      i := 0;
    } else {
      var j := ContainsWitness(s[1..], k);
      assert s[1..][j..j + |k|] == s[j + 1..j + 1 + |k|];
      i := j + 1;
    }
  }

  /** Python's `s.split(" ")`: the pieces between single spaces, empty ones included. */
  function Split(s: string): (r: seq<string>)
    ensures |r| >= 1
    ensures forall k :: 0 <= k < |r| ==> ' ' !in r[k]
  {
    if s == [] then [""]
    else
      var rest := Split(s[1..]);
      if s[0] == ' ' then [""] + rest
      else [[s[0]] + rest[0]] + rest[1..]
  }

  /** A word without spaces in front of `rest` joins the first piece of `rest`. */
  lemma {:induction false} SplitWord(w: string, rest: string)
    requires ' ' !in w
    ensures Split(w + rest) == [w + Split(rest)[0]] + Split(rest)[1..]
  {
    if w != [] {
      assert (w + rest)[0] == w[0] && (w + rest)[1..] == w[1..] + rest;
      SplitWord(w[1..], rest);
      assert [w[0]] + (w[1..] + Split(rest)[0]) == w + Split(rest)[0];
    } else {
      var r := Split(rest);
      assert w + rest == rest && w + r[0] == r[0];
      assert [r[0]] + r[1..] == r;
    }
  }

  /** Two copies of a word without spaces, separated by one space, split into those two copies. */
  lemma SplitTwice(w: string)
    requires ' ' !in w
    ensures Split(w + " " + w) == [w, w]
  {
    SplitWord(w, []);
    assert w + [] == w;
    var tail := " " + w;
    assert tail[0] == ' ' && tail[1..] == w;
    assert Split(tail) == [""] + Split(w);
    assert w + " " + w == w + tail;
    SplitWord(w, tail);
  }

  /** `" ".join(ws)`. */
  function Join(ws: seq<string>): string {
    if |ws| == 0 then ""
    else if |ws| == 1 then ws[0]
    else ws[0] + " " + Join(ws[1..])
  }

  /** Splitting on spaces loses nothing: joining the pieces gives the string back. */
  lemma {:induction false} JoinSplit(s: string)
    ensures Join(Split(s)) == s
  {
    if s != [] {
      var rest := Split(s[1..]);
      JoinSplit(s[1..]);
      if s[0] == ' ' {
        assert Split(s) == [""] + rest;
        assert ([""] + rest)[1..] == rest;
      } else {
        var r := Split(s);
        assert r == [[s[0]] + rest[0]] + rest[1..];
        if |rest| == 1 {
          assert r == [[s[0]] + rest[0]];
        } else {
          assert r[1..] == rest[1..];
          assert Join(rest) == rest[0] + " " + Join(rest[1..]);
        }
      }
    }
  }
}
