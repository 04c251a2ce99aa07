/**
 * `_find_mission_by_name_or_code` (src/services/chatbot.py): which visible
 * mission, if any, a question is about. An exact code match wins; failing
 * that, every visible mission is scored against the normalized question
 * and the first one with the best score is taken when that score is at
 * least 4.
 */
module MissionResolver {
  import opened Wrappers
  import opened Text
  import opened Schema
  import opened Intents
  import opened MissionCodes

  /** A row of `SELECT id, code, name FROM missions`. */
  datatype MissionRef = MissionRef(id: int, code: string, name: string)

  /** The missions whose id is in `ids`, in table order (`WHERE id IN (…)`). */
  function VisibleMissions(ms: seq<Mission>, ids: set<int>): (rows: seq<MissionRef>)
    ensures |rows| <= |ms|
    ensures forall k :: 0 <= k < |rows| ==> rows[k].id in ids
    ensures forall j :: 0 <= j < |ms| && ms[j].id in ids ==>
      MissionRef(ms[j].id, ms[j].code, ms[j].name) in rows
    ensures forall k :: 0 <= k < |rows| ==>
      exists j :: 0 <= j < |ms| && rows[k] == MissionRef(ms[j].id, ms[j].code, ms[j].name)
  {
    if ms == [] then []
    else
      var rest := VisibleMissions(ms[1..], ids);
      assert forall j :: 1 <= j < |ms| ==> ms[j] == ms[1..][j - 1];
      assert forall k :: 0 <= k < |rest| ==> exists j :: 0 <= j < |ms| && rest[k] == MissionRef(ms[j].id, ms[j].code, ms[j].name) by {
        forall k | 0 <= k < |rest| ensures exists j :: 0 <= j < |ms| && rest[k] == MissionRef(ms[j].id, ms[j].code, ms[j].name) {
          var j :| 0 <= j < |ms[1..]| && rest[k] == MissionRef(ms[1..][j].id, ms[1..][j].code, ms[1..][j].name);
          assert ms[1..][j] == ms[j + 1];
        }
      }
      if ms[0].id in ids then [MissionRef(ms[0].id, ms[0].code, ms[0].name)] + rest else rest
  }

  /** `AND UPPER(code) = UPPER(?) LIMIT 1`: the first row whose code equals `code` up to case. */
  function ExactCodeHit(rows: seq<MissionRef>, code: string): (r: Option<MissionRef>)
    ensures r.Some? ==> r.value in rows && Upper(r.value.code) == Upper(code)
    ensures r.None? <==> forall k :: 0 <= k < |rows| ==> Upper(rows[k].code) != Upper(code)
  {
    if rows == [] then None
    else if Upper(rows[0].code) == Upper(code) then Some(rows[0])
    else
      assert forall k :: 1 <= k < |rows| ==> rows[k] == rows[1..][k - 1];
      ExactCodeHit(rows[1..], code)
  }

  /** The words of a normalized name that score: at least four letters, and not the word "mission". */
  function ScoringWords(name: string): (ws: seq<string>)
    ensures forall k :: 0 <= k < |ws| ==> |ws[k]| >= 4 && ws[k] != "mission"
  {
    FilterWords(Split(name))
  }

  function FilterWords(ws: seq<string>): (r: seq<string>)
    ensures |r| <= |ws|
    ensures forall k :: 0 <= k < |r| ==> |r[k]| >= 4 && r[k] != "mission"
    ensures forall k :: 0 <= k < |r| ==> r[k] in ws
  {
    if ws == [] then []
    else
      var rest := FilterWords(ws[1..]);
      if |ws[0]| >= 4 && ws[0] != "mission" then [ws[0]] + rest else rest
  }

  /** Two points for each word of `ws` that occurs in the question `t`: an even number, at most two per word. */
  function WordPoints(ws: seq<string>, t: string): (p: nat)
    ensures p <= 2 * |ws| && p % 2 == 0
  {
    if ws == [] then 0
    else WordPoints(ws[..|ws| - 1], t) + (if Contains(t, ws[|ws| - 1]) then 2 else 0)
  }

  /** Ten points each for the whole name and the whole code occurring in `t`. */
  function WholePoints(name: string, code: string, t: string): nat {
    (if name != [] && Contains(t, name) then 10 else 0) + (if code != [] && Contains(t, code) then 10 else 0)
  }

  /** A visible mission with its name and code as the scoring sees them, normalized. */
  datatype Candidate = Candidate(row: MissionRef, name: string, code: string)

  /** The candidates of the rows, in row order. */
  function Candidates(rows: seq<MissionRef>): (cs: seq<Candidate>)
    ensures |cs| == |rows|
    ensures forall k :: 0 <= k < |rows| ==> cs[k].row == rows[k]
  {
    if rows == [] then []
    else [Candidate(rows[0], Normalize(rows[0].name), Normalize(rows[0].code))] + Candidates(rows[1..])
  }

  /** The candidate of row `i` holds that row's normalized name and code. */
  lemma {:induction false} CandidateAt(rows: seq<MissionRef>, i: nat)
    requires i < |rows|
    ensures Candidates(rows)[i] == Candidate(rows[i], Normalize(rows[i].name), Normalize(rows[i].code))
  {
    if i > 0 {
      CandidateAt(rows[1..], i - 1);
    }
  }

  /**
   * The score of a candidate against the normalized question `t`: always
   * even, at least 10 when the whole name or code occurs, and at most 20
   * plus two per scoring word.
   */
  function Score(c: Candidate, t: string): (r: nat)
    ensures r % 2 == 0
    ensures (c.name != [] && Contains(t, c.name)) || (c.code != [] && Contains(t, c.code)) ==> r >= 10
    ensures r <= 20 + 2 * |ScoringWords(c.name)|
  {
    WholePoints(c.name, c.code, t) + WordPoints(ScoringWords(c.name), t)
  }

  /** The score of each candidate, in order. */
  function Scores(cs: seq<Candidate>, t: string): (xs: seq<nat>)
    ensures |xs| == |cs|
    ensures forall k :: 0 <= k < |cs| ==> xs[k] == Score(cs[k], t)
  {
    seq(|cs|, k requires 0 <= k < |cs| => Score(cs[k], t))
  }

  /** The largest of `xs`, 0 for none. */
  function MaxOf(xs: seq<nat>): (best: nat)
    ensures forall k :: 0 <= k < |xs| ==> xs[k] <= best
    ensures xs == [] ==> best == 0
    ensures best > 0 ==> exists k :: 0 <= k < |xs| && xs[k] == best
  {
    if xs == [] then 0
    else
      var prefix := xs[..|xs| - 1];
      var m := MaxOf(prefix);
      assert forall k :: 0 <= k < |prefix| ==> prefix[k] == xs[k];
      if xs[|xs| - 1] > m then xs[|xs| - 1] else m
  }

  /**
   * Where a scan that keeps only strictly better values ends up: the first
   * position holding the largest value, none when every value is 0.
   */
  function FirstBest(xs: seq<nat>): (r: Option<nat>)
    ensures r.None? <==> MaxOf(xs) == 0
    ensures r.Some? ==> r.value < |xs| && xs[r.value] == MaxOf(xs)
    ensures r.Some? ==> forall k :: 0 <= k < r.value ==> xs[k] < MaxOf(xs)
  {
    if xs == [] then None
    else
      var prefix := xs[..|xs| - 1];
      assert forall k :: 0 <= k < |prefix| ==> prefix[k] == xs[k];
      if xs[|xs| - 1] > MaxOf(prefix) then Some(|xs| - 1)
      else FirstBest(prefix)
  }

  /** One more value either beats the best so far (and is kept) or leaves the scan as it was. */
  lemma ScanStep(xs: seq<nat>, i: nat)
    requires i < |xs|
    ensures MaxOf(xs[..i + 1]) == if xs[i] > MaxOf(xs[..i]) then xs[i] else MaxOf(xs[..i])
    ensures FirstBest(xs[..i + 1]) == if xs[i] > MaxOf(xs[..i]) then Some(i) else FirstBest(xs[..i])
  {
    assert xs[..i + 1][..i] == xs[..i];
  }

  /** The position the scan settles on: the first best value, when that value is at least 4. */
  function PickIndex(xs: seq<nat>): (r: Option<nat>)
    ensures r.Some? <==> exists k :: 0 <= k < |xs| && xs[k] >= 4
    ensures r.Some? ==> r.value < |xs| && xs[r.value] >= 4
    ensures r.Some? ==> forall j :: 0 <= j < |xs| ==> xs[j] <= xs[r.value]
    ensures r.Some? ==> forall j :: 0 <= j < r.value ==> xs[j] < xs[r.value]
  {
    if MaxOf(xs) >= 4 then FirstBest(xs) else None
  }

  /**
   * The name-and-code step: nothing for a question shorter than three
   * characters or no rows; else the first best-scoring candidate when its
   * score reaches 4. The choice has the best score, every candidate before
   * it scores less, and there is none exactly when no candidate reaches 4.
   */
  function ScoredPick(cs: seq<Candidate>, t: string): (r: Option<nat>)
    ensures r.Some? <==> |t| >= 3 && exists k :: 0 <= k < |cs| && Score(cs[k], t) >= 4
    ensures r.Some? ==> r.value < |cs| && Score(cs[r.value], t) >= 4
    ensures r.Some? ==> forall j :: 0 <= j < |cs| ==> Score(cs[j], t) <= Score(cs[r.value], t)
    ensures r.Some? ==> forall j :: 0 <= j < r.value ==> Score(cs[j], t) < Score(cs[r.value], t)
  {
    if |t| < 3 || cs == [] then None
    else
      var scores := Scores(cs, t);
      var r := PickIndex(scores);
      assert (exists k :: 0 <= k < |cs| && Score(cs[k], t) >= 4) ==> r.Some? by {
        if exists k :: 0 <= k < |cs| && Score(cs[k], t) >= 4 {
          var k :| 0 <= k < |cs| && Score(cs[k], t) >= 4;
          assert scores[k] >= 4;
        }
      }
      r
  }

  /**
   * For a long enough question and some candidates, the pick is the scan's
   * choice over the scores. This is `ScoredPick`'s own body; it is a lemma of
   * its own so that `FindMissionByNameOrCode` can use it as one step, where
   * unfolding `ScoredPick` inside the method is too expensive.
   */
  lemma ScoredPickScans(cs: seq<Candidate>, t: string)
    requires |t| >= 3 && cs != []
    ensures ScoredPick(cs, t) == if MaxOf(Scores(cs, t)) >= 4 then FirstBest(Scores(cs, t)) else None
  {
  }

  /** The mission a question is about, as `_find_mission_by_name_or_code` decides it. */
  function ResolveMission(ms: seq<Mission>, ids: set<int>, text: string): (r: Option<MissionRef>)
    ensures ids == {} ==> r.None?
    ensures r.Some? ==> r.value.id in ids && r.value in VisibleMissions(ms, ids)
  {
    if ids == {} then None
    else
      var rows := VisibleMissions(ms, ids);
      var hit := match ExtractMissionCode(text)
        case Some(code) => ExactCodeHit(rows, code)
        case None => None;
      if hit.Some? then hit
      else match ScoredPick(Candidates(rows), Normalize(text))
        case Some(k) => Some(rows[k])
        case None => None
  }

  /** The inner loop: two points for each scoring word found in the question. */
  method AddWordPoints(score0: nat, words: seq<string>, t: string) returns (score: nat)
    ensures score == score0 + WordPoints(words, t)
  {
    score := score0;
    var j := 0;
    while j < |words|
      invariant 0 <= j <= |words|
      invariant score == score0 + WordPoints(words[..j], t)
    {
      assert words[..j + 1][..j] == words[..j];
      if Contains(t, words[j]) {
        score := score + 2;
      }
      j := j + 1;
    }
    assert words[..|words|] == words;
  }

  /** The score of one candidate, summed the way the loop body does. */
  method ScoreCandidate(c: Candidate, t: string) returns (score: nat)
    ensures score == Score(c, t)
  {
    score := WholeMatchPoints(c.name, c.code, t);
    score := AddWordPoints(score, ScoringWords(c.name), t);
  }

  /**
   * The first two tests of the loop body, as the statements the loop runs:
   * ten points each for the whole name and the whole code. `WholePoints` is
   * the value they compute, which `Score` and the lemmas use.
   */
  method WholeMatchPoints(name: string, code2: string, t: string) returns (score: nat)
    ensures score == WholePoints(name, code2, t)
  {
    score := 0;
    if name != [] && Contains(t, name) {
      score := score + 10;
    }
    if code2 != [] && Contains(t, code2) {
      score := score + 10;
    }
  }

  /** The loop body's score of row `i`: its name and code normalized, then scored. */
  method ScoreRow(rows: seq<MissionRef>, i: nat, t: string) returns (score: nat)
    requires i < |rows|
    ensures score == Scores(Candidates(rows), t)[i]
  {
    var name := Normalize(rows[i].name);
    var code2 := Normalize(rows[i].code);
    CandidateAt(rows, i);
    score := ScoreCandidate(Candidate(rows[i], name, code2), t);
  }

  /** The scan over the rows, with its `best` and `best_score` accumulators. */
  method PickBest(rows: seq<MissionRef>, t: string) returns (best: Option<MissionRef>, bestScore: nat)
    ensures bestScore == MaxOf(Scores(Candidates(rows), t))
    ensures best == (match FirstBest(Scores(Candidates(rows), t)) case Some(k) => Some(rows[k]) case None => None)
  {
    ghost var cs := Candidates(rows);
    ghost var scores := Scores(cs, t);
    best := None;
    bestScore := 0;
    var i := 0;
    while i < |rows|
      invariant 0 <= i <= |rows|
      invariant bestScore == MaxOf(scores[..i])
      invariant best == (match FirstBest(scores[..i]) case Some(k) => Some(rows[k]) case None => None)
    {
      var score := ScoreRow(rows, i, t);
      ScanStep(scores, i);
      if score > bestScore {
        bestScore := score;
        best := Some(rows[i]);
      }
      i := i + 1;
    }
    assert scores[..|rows|] == scores;
  }

  /** `_find_mission_by_name_or_code`. */
  method FindMissionByNameOrCode(missions: seq<Mission>, missionIds: set<int>, text: string)
    returns (found: Option<MissionRef>)
    ensures found == ResolveMission(missions, missionIds, text)
  {
    if missionIds == {} {
      return None;
    }
    var code := ExtractMissionCode(text);
    var rows := VisibleMissions(missions, missionIds);
    if code.Some? {
      var row := ExactCodeHit(rows, code.value);
      if row.Some? {
        return row;
      }
    }
    var t := Normalize(text);
    if |t| < 3 {
      return None;
    }
    if rows == [] {
      return None;
    }
    var best, bestScore := PickBest(rows, t);
    ScoredPickScans(Candidates(rows), t);
    if bestScore >= 4 {
      return best;
    }
    return None;
  }

  // ---------------------------------------------------------------- properties

  /** A visible mission whose code is the one written in the question is chosen, before any scoring. */
  lemma ExactCodeWins(ms: seq<Mission>, ids: set<int>, text: string, code: string)
    requires ids != {} && ExtractMissionCode(text) == Some(code)
    requires exists k :: 0 <= k < |VisibleMissions(ms, ids)| && Upper(VisibleMissions(ms, ids)[k].code) == Upper(code)
    ensures ResolveMission(ms, ids, text).Some?
    ensures Upper(ResolveMission(ms, ids, text).value.code) == Upper(code)
  {
  }

  /** Without an exact code hit, the choice is the scored pick over the visible missions. */
  lemma ScoredChoice(ms: seq<Mission>, ids: set<int>, text: string)
    requires ids != {}
    requires ExtractMissionCode(text).Some? ==>
      ExactCodeHit(VisibleMissions(ms, ids), ExtractMissionCode(text).value).None?
    ensures var rows := VisibleMissions(ms, ids);
      ResolveMission(ms, ids, text) ==
        match ScoredPick(Candidates(rows), Normalize(text)) case Some(k) => Some(rows[k]) case None => None
  {
  }

  /**
   * Word points of four or more mean that the scoring words occur in the
   * question at two positions of the list; the list keeps repeated words,
   * so a name that repeats a word reaches four with that one word.
   */
  lemma {:induction false} WordPointsNeedTwoWords(ws: seq<string>, t: string)
    requires WordPoints(ws, t) >= 4
    ensures exists a, b :: 0 <= a < b < |ws| && Contains(t, ws[a]) && Contains(t, ws[b])
  {
    var prefix := ws[..|ws| - 1];
    assert forall k :: 0 <= k < |prefix| ==> prefix[k] == ws[k];
    if WordPoints(prefix, t) >= 4 {
      WordPointsNeedTwoWords(prefix, t);
      var a, b :| 0 <= a < b < |prefix| && Contains(t, prefix[a]) && Contains(t, prefix[b]);
    } else {
      assert WordPoints(prefix, t) >= 2;
      var a := OneWordPoints(prefix, t);
      assert Contains(t, ws[|ws| - 1]);
    }
  }

  /** A name that repeats a scoring word scores four points from that one word. */
  lemma RepeatedWordCountsTwice(w: string, t: string)
    requires |w| >= 4 && w != "mission" && ' ' !in w && Contains(t, w)
    ensures ScoringWords(w + " " + w) == [w, w]
    ensures WordPoints(ScoringWords(w + " " + w), t) == 4
  {
    SplitTwice(w);
    assert FilterWords([w, w]) == [w, w] by {
      assert [w, w][1..] == [w];
      assert [w][1..] == [];
    }
    assert [w, w][..1] == [w];
    assert [w][..0] == [];
  }

  /** Any word points at all come from a word that occurs in the question. */
  lemma {:induction false} OneWordPoints(ws: seq<string>, t: string) returns (a: nat)
    requires WordPoints(ws, t) >= 1
    ensures a < |ws| && Contains(t, ws[a])
  {
    var prefix := ws[..|ws| - 1];
    if Contains(t, ws[|ws| - 1]) {
      a := |ws| - 1;
    } else {
      a := OneWordPoints(prefix, t);
      assert prefix[a] == ws[a];
    }
  }

  /**
   * A mission reaches the threshold of 4 only through its whole name, its
   * whole code, or two positions of its scoring-word list occurring in the
   * question (a word the name repeats fills both).
   */
  lemma ThresholdMeaning(c: Candidate, t: string)
    requires Score(c, t) >= 4
    ensures || (c.name != [] && Contains(t, c.name))
            || (c.code != [] && Contains(t, c.code))
            || exists a, b :: 0 <= a < b < |ScoringWords(c.name)|
                 && Contains(t, ScoringWords(c.name)[a]) && Contains(t, ScoringWords(c.name)[b])
  {
    if WholePoints(c.name, c.code, t) == 0 {
      WordPointsNeedTwoWords(ScoringWords(c.name), t);
    }
  }
}
