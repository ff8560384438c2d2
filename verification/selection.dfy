/**
  The two ways the site designer turns an ordered list of keyword rules into one
  answer. `pickPaletteFromConversation` runs every rule and lets each one that fires
  overwrite the answer, so the LAST firing rule decides; `suggestHeadline` and
  `pickTone` return at the first rule that fires, so the FIRST firing rule decides.
 */
module Selection {
  import opened Text

  /** One `if (/(k1|k2|...)/.test(text)) ... result` line of the source. */
  datatype Rule<T> = Rule(keywords: seq<string>, result: T)

  /** The rule's regular expression matches the text. */
  predicate Fires<T>(rule: Rule<T>, text: string) {
    ContainsAny(text, rule.keywords)
  }

  /** Overwrite-wins-last: start from `default` and run the rules in order, each firing
      rule replacing the current answer (a sequence of `if (...) x = ...;` lines). */
  function Overwrite<T>(rules: seq<Rule<T>>, text: string, default: T): (r: T)
    ensures r == default || exists k :: 0 <= k < |rules| && r == rules[k].result
  {
    if rules == [] then default
    else
      var prev := Overwrite(rules[..|rules| - 1], text, default);
      if Fires(rules[|rules| - 1], text) then rules[|rules| - 1].result else prev
  }

  /** First-match-wins: the answer of the first firing rule, `default` when none fires
      (a sequence of `if (...) return ...;` lines). */
  function FirstMatch<T>(rules: seq<Rule<T>>, text: string, default: T): (r: T)
    ensures r == default || exists k :: 0 <= k < |rules| && r == rules[k].result
  {
    if rules == [] then default
    else if Fires(rules[0], text) then rules[0].result
    else
      var r := FirstMatch(rules[1..], text, default);
      assert forall k :: 1 <= k < |rules| ==> rules[k] == rules[1..][k - 1];
      r
  }

  /** Under overwrite-wins-last the rule `k` decides when it fires and no later rule does,
      whatever the earlier rules do. */
  lemma {:induction false} OverwriteLastFiringWins<T>(rules: seq<Rule<T>>, text: string, default: T, k: int)
    requires 0 <= k < |rules| && Fires(rules[k], text)
    requires forall j :: k < j < |rules| ==> !Fires(rules[j], text)
    ensures Overwrite(rules, text, default) == rules[k].result
  {
    if k < |rules| - 1 {
      var init := rules[..|rules| - 1];
      assert forall j :: k < j < |init| ==> init[j] == rules[j];
      OverwriteLastFiringWins(init, text, default, k);
    }
  }

  /** Under overwrite-wins-last the default survives when no rule fires. */
  lemma {:induction false} OverwriteNoneFires<T>(rules: seq<Rule<T>>, text: string, default: T)
    requires forall j :: 0 <= j < |rules| ==> !Fires(rules[j], text)
    ensures Overwrite(rules, text, default) == default
  {
    if rules != [] {
      var init := rules[..|rules| - 1];
      assert forall j :: 0 <= j < |init| ==> init[j] == rules[j];
      OverwriteNoneFires(init, text, default);
    }
  }

  /** Under first-match-wins the rule `k` decides when it fires and no earlier rule does,
      whatever the later rules do. */
  lemma {:induction false} FirstMatchFirstFiringWins<T>(rules: seq<Rule<T>>, text: string, default: T, k: int)
    requires 0 <= k < |rules| && Fires(rules[k], text)
    requires forall j :: 0 <= j < k ==> !Fires(rules[j], text)
    ensures FirstMatch(rules, text, default) == rules[k].result
  {
    if k > 0 {
      var tail := rules[1..];
      assert forall j :: 0 <= j < k - 1 ==> tail[j] == rules[j + 1];
      FirstMatchFirstFiringWins(tail, text, default, k - 1);
    }
  }

  /** Under first-match-wins the default is returned when no rule fires. */
  lemma {:induction false} FirstMatchNoneFires<T>(rules: seq<Rule<T>>, text: string, default: T)
    requires forall j :: 0 <= j < |rules| ==> !Fires(rules[j], text)
    ensures FirstMatch(rules, text, default) == default
  {
    if rules != [] {
      var tail := rules[1..];
      assert forall j :: 0 <= j < |tail| ==> tail[j] == rules[j + 1];
      FirstMatchNoneFires(tail, text, default);
    }
  }
}
