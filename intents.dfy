/**
 * How the chatbot reads a question (src/services/chatbot.py): the question
 * is cleaned (`_sanitize_question`) and sorted into one of six intents by
 * keyword groups tried in a fixed order (`_intent`). Mission names and
 * codes are cleaned by `_normalize`, the same three steps in another order.
 */
module Intents {
  import opened Text

  /** Lower case, single spaces only, and no space at either end. */
  predicate IsClean(s: string) {
    IsLowercase(s) && SpacesCollapsed(s) && (s != [] ==> s[0] != ' ' && s[|s| - 1] != ' ')
  }

  /** `_sanitize_question`: strip, lower-case, then collapse whitespace runs. The result is clean. */
  function SanitizeQuestion(q: string): (r: string)
    ensures |r| <= |q|
    ensures IsClean(r)
  {
    var l := Lower(Strip(q));
    StripSpec(q);
    LowerSpec(Strip(q));
    LowerKeepsSpaces(Strip(q));
    assert l != [] ==> !IsSpace(l[0]) && !IsSpace(l[|l| - 1]);
    CollapseRunsSpec(l, false);
    Collapse(l)
  }

  /** `_normalize`: collapse whitespace runs, strip, then lower-case. The result is clean. */
  function Normalize(s: string): (r: string)
    ensures |r| <= |s|
    ensures IsClean(r)
  {
    var c := Collapse(s);
    CollapseRunsSpec(s, false);
    StripSpec(c);
    LowerSpec(Strip(c));
    LowerKeepsSpaces(Strip(c));
    Lower(Strip(c))
  }

  /** A clean string is left as it is by both cleaners. */
  lemma CleanIsFixpoint(s: string)
    requires IsClean(s)
    ensures SanitizeQuestion(s) == s
    ensures Normalize(s) == s
  {
    StripSpec(s);
    LowerSpec(s);
    CollapseRunsFixpoint(s, false);
  }

  /** Cleaning a question twice changes nothing more than cleaning it once. */
  lemma SanitizeIdempotent(q: string)
    ensures SanitizeQuestion(SanitizeQuestion(q)) == SanitizeQuestion(q)
  {
    CleanIsFixpoint(SanitizeQuestion(q));
  }

  /** Normalizing twice changes nothing more than normalizing once. */
  lemma NormalizeIdempotent(s: string)
    ensures Normalize(Normalize(s)) == Normalize(s)
  {
    CleanIsFixpoint(Normalize(s));
  }

  /** Whitespace collapses to at most one space. */
  lemma {:induction false} CollapseBlank(s: string, inRun: bool)
    requires forall i :: 0 <= i < |s| ==> IsSpace(s[i])
    ensures CollapseRuns(s, inRun) == (if s == [] || inRun then [] else " ")
  {
    if s != [] {
      CollapseBlank(s[1..], true);
    }
  }

  /** Stripping whitespace leaves nothing. */
  lemma StripBlank(s: string)
    requires forall i :: 0 <= i < |s| ==> IsSpace(s[i])
    ensures Strip(s) == []
  {
    TrimLeftSpec(s);
  }

  /** A question of whitespace only cleans to the empty string, under both cleaners. */
  lemma BlankCleansToEmpty(q: string)
    requires forall i :: 0 <= i < |q| ==> IsSpace(q[i])
    ensures SanitizeQuestion(q) == []
    ensures Normalize(q) == []
  {
    StripBlank(q);
    CollapseBlank(q, false);
    StripBlank(Collapse(q));
  }

  // ---------------------------------------------------------------- intents

  datatype Intent = Help | ProjectsRisk | WhoBusy | TimeSplit | FinanceSummary | StatusGlobal

  const HelpKeys: seq<string> := ["aide", "help", "que peux-tu", "exemple"]
  const RiskKeys: seq<string> := ["à risque", "risque", "dérive", "overrun", "near limit", "alerte"]
  const BusyKeys: seq<string> := ["plus chargé", "surcharg", "qui est chargé", "busy", "charge"]
  const SplitKeys: seq<string> := ["répartition", "billable", "internal", "non billable", "catégorie"]
  const FinanceKeys: seq<string> := ["marge", "margin", "coût", "cout", "ca", "chiffre", "€", "eur", "finance"]
  const StatusKeys: seq<string> := ["où en est", "où en est-on", "statut", "global", "cette semaine", "this week"]

  /** `any(k in q for k in keys)`. */
  predicate MentionsAny(q: string, keys: seq<string>) {
    exists k :: k in keys && Contains(q, k)
  }

  /**
   * `_intent`: the empty question asks for help; otherwise the first group
   * that matches wins. Help is asked for exactly by the empty question or a
   * help keyword, and each of the four groups after it gives its intent
   * only when one of its keywords occurs and no earlier group's does.
   */
  function ClassifyIntent(q: string): (r: Intent)
    ensures r == Help <==> q == [] || MentionsAny(q, HelpKeys)
    ensures r == ProjectsRisk ==> MentionsAny(q, RiskKeys) && !MentionsAny(q, HelpKeys)
    ensures r == WhoBusy ==> MentionsAny(q, BusyKeys) && !MentionsAny(q, HelpKeys) && !MentionsAny(q, RiskKeys)
    ensures r == TimeSplit ==>
      (MentionsAny(q, SplitKeys) && !MentionsAny(q, HelpKeys) && !MentionsAny(q, RiskKeys) && !MentionsAny(q, BusyKeys))
    ensures r == FinanceSummary ==>
      (MentionsAny(q, FinanceKeys) && !MentionsAny(q, HelpKeys) && !MentionsAny(q, RiskKeys)
       && !MentionsAny(q, BusyKeys) && !MentionsAny(q, SplitKeys))
  {
    if q == [] then Help
    else if MentionsAny(q, HelpKeys) then Help
    else if MentionsAny(q, RiskKeys) then ProjectsRisk
    else if MentionsAny(q, BusyKeys) then WhoBusy
    else if MentionsAny(q, SplitKeys) then TimeSplit
    else if MentionsAny(q, FinanceKeys) then FinanceSummary
    else if MentionsAny(q, StatusKeys) then StatusGlobal
    else StatusGlobal
  }

  /** The keyword groups in the order `_intent` tries them. */
  const Rules: seq<(seq<string>, Intent)> := [
    (HelpKeys, Help), (RiskKeys, ProjectsRisk), (BusyKeys, WhoBusy),
    (SplitKeys, TimeSplit), (FinanceKeys, FinanceSummary), (StatusKeys, StatusGlobal)]

  /** A rule table read top to bottom: the intent of the first rule that matches, else `fallback`. */
  function FirstMatch(q: string, rules: seq<(seq<string>, Intent)>, fallback: Intent): Intent {
    if rules == [] then fallback
    else if MentionsAny(q, rules[0].0) then rules[0].1
    else FirstMatch(q, rules[1..], fallback)
  }

  /** The first matching rule of a table decides, whatever the later rules say. */
  lemma {:induction false} FirstMatchIsFirst(q: string, rules: seq<(seq<string>, Intent)>, fallback: Intent, j: nat)
    requires j < |rules| && MentionsAny(q, rules[j].0)
    requires forall i :: 0 <= i < j ==> !MentionsAny(q, rules[i].0)
    ensures FirstMatch(q, rules, fallback) == rules[j].1
  {
    if j > 0 {
      assert forall i :: 0 <= i < j - 1 ==> rules[1..][i] == rules[i + 1];
      FirstMatchIsFirst(q, rules[1..], fallback, j - 1);
    }
  }

  /** With no rule matching, a table gives its fallback. */
  lemma {:induction false} FirstMatchFallback(q: string, rules: seq<(seq<string>, Intent)>, fallback: Intent)
    requires forall i :: 0 <= i < |rules| ==> !MentionsAny(q, rules[i].0)
    ensures FirstMatch(q, rules, fallback) == fallback
  {
    if rules != [] {
      assert forall i :: 0 <= i < |rules| - 1 ==> rules[1..][i] == rules[i + 1];
      FirstMatchFallback(q, rules[1..], fallback);
    }
  }

  /** `_intent` is the rule table read top to bottom, with the global status as fallback. */
  lemma ClassifierIsRuleTable(q: string)
    requires q != []
    ensures ClassifyIntent(q) == FirstMatch(q, Rules, StatusGlobal)
  {
    var r1 := Rules[1..];
    var r2 := r1[1..];
    var r3 := r2[1..];
    var r4 := r3[1..];
    var r5 := r4[1..];
    assert Rules[0] == (HelpKeys, Help) && r1[0] == (RiskKeys, ProjectsRisk) && r2[0] == (BusyKeys, WhoBusy);
    assert r3[0] == (SplitKeys, TimeSplit) && r4[0] == (FinanceKeys, FinanceSummary);
    assert r5 == [(StatusKeys, StatusGlobal)] && r5[1..] == [];
    assert FirstMatch(q, r5, StatusGlobal) == StatusGlobal;
    assert FirstMatch(q, r4, StatusGlobal) == (if MentionsAny(q, FinanceKeys) then FinanceSummary else StatusGlobal);
    assert FirstMatch(q, r3, StatusGlobal) == (if MentionsAny(q, SplitKeys) then TimeSplit else FirstMatch(q, r4, StatusGlobal));
    assert FirstMatch(q, r2, StatusGlobal) == (if MentionsAny(q, BusyKeys) then WhoBusy else FirstMatch(q, r3, StatusGlobal));
    assert FirstMatch(q, r1, StatusGlobal) == (if MentionsAny(q, RiskKeys) then ProjectsRisk else FirstMatch(q, r2, StatusGlobal));
  }

  /**
   * The status group decides nothing: the rule table without it classifies
   * every question the same way, since a question it would catch falls
   * back to the global status anyway.
   */
  lemma StatusGroupIsRedundant(q: string)
    ensures FirstMatch(q, Rules, StatusGlobal) == FirstMatch(q, Rules[..5], StatusGlobal)
  {
    var r1 := Rules[1..];
    var r2 := r1[1..];
    var r3 := r2[1..];
    var r4 := r3[1..];
    var r5 := r4[1..];
    var p1 := Rules[..5][1..];
    var p2 := p1[1..];
    var p3 := p2[1..];
    var p4 := p3[1..];
    assert Rules[..5][0] == Rules[0] && p1[0] == r1[0] && p2[0] == r2[0] && p3[0] == r3[0];
    assert r4 == [(FinanceKeys, FinanceSummary), (StatusKeys, StatusGlobal)] && r5[1..] == [];
    assert p4 == [(FinanceKeys, FinanceSummary)] && p4[1..] == [];
    assert FirstMatch(q, r4, StatusGlobal) == FirstMatch(q, p4, StatusGlobal);
    assert FirstMatch(q, r3, StatusGlobal) == FirstMatch(q, p3, StatusGlobal);
    assert FirstMatch(q, r2, StatusGlobal) == FirstMatch(q, p2, StatusGlobal);
    assert FirstMatch(q, r1, StatusGlobal) == FirstMatch(q, p1, StatusGlobal);
  }

  /** Keyword precedence: a non-empty question gets the intent of the first group it mentions. */
  lemma IntentIsFirstMatchingGroup(q: string, j: nat)
    requires q != [] && j < |Rules| && MentionsAny(q, Rules[j].0)
    requires forall i :: 0 <= i < j ==> !MentionsAny(q, Rules[i].0)
    ensures ClassifyIntent(q) == Rules[j].1
  {
    FirstMatchIsFirst(q, Rules, StatusGlobal, j);
    ClassifierIsRuleTable(q);
  }

  /** A non-empty question that mentions no group is read as a request for the global status. */
  lemma IntentDefaultsToStatus(q: string)
    requires q != []
    requires forall i :: 0 <= i < |Rules| ==> !MentionsAny(q, Rules[i].0)
    ensures ClassifyIntent(q) == StatusGlobal
  {
    FirstMatchFallback(q, Rules, StatusGlobal);
    ClassifierIsRuleTable(q);
  }


  /** A question of whitespace only is a request for help. */
  lemma BlankQuestionIsHelp(q: string)
    requires forall i :: 0 <= i < |q| ==> IsSpace(q[i])
    ensures ClassifyIntent(SanitizeQuestion(q)) == Help
  {
    BlankCleansToEmpty(q);
  }
}
