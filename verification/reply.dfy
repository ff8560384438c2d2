/**
  The reply simulator: `pickTone` classifies the brand voice of a prompt by keyword
  (first match wins over four groups, with a fallback label), and `mockClaudeReply`
  puts that label into a fixed multi-line plan built from the trimmed prompt. The
  650 ms timer that delays the answer is not part of this model.
 */
module Reply {
  import opened Text
  import opened Selection

  const PlayfulTone: string := "playful and friendly"
  const BoldTone: string := "bold and energetic"
  const CalmTone: string := "calm and minimal"
  const PremiumTone: string := "refined and premium"
  const DefaultTone: string := "clear and confident"

  const PlayfulToneWords: seq<string> := ["playful", "fun", "friendly"]
  const BoldToneWords: seq<string> := ["bold", "energetic", "strong"]
  const CalmToneWords: seq<string> := ["calm", "minimal", "clean", "simple"]
  const PremiumToneWords: seq<string> := ["premium", "luxury"]

  /** The tone rules in source order; the first that fires decides. */
  const ToneRules: seq<Rule<string>> :=
    [Rule(PlayfulToneWords, PlayfulTone), Rule(BoldToneWords, BoldTone),
     Rule(CalmToneWords, CalmTone), Rule(PremiumToneWords, PremiumTone)]

  /** `pickTone`: early returns over the lower-cased text; always one of the five labels. */
  function PickTone(text: string): (tone: string)
    ensures tone in {PlayfulTone, BoldTone, CalmTone, PremiumTone, DefaultTone}
  {
    if ContainsAny(ToLower(text), PlayfulToneWords) then PlayfulTone
    else if ContainsAny(ToLower(text), BoldToneWords) then BoldTone
    else if ContainsAny(ToLower(text), CalmToneWords) then CalmTone
    else if ContainsAny(ToLower(text), PremiumToneWords) then PremiumTone
    else DefaultTone
  }

  /** The early-return chain is the first-match-wins policy over the tone rules, applied
      to the lower-cased text, with "clear and confident" as the fallback. */
  lemma PickToneIsFirstMatch(text: string)
    ensures PickTone(text) == FirstMatch(ToneRules, ToLower(text), DefaultTone)
  {
    var t := ToLower(text);
    if ContainsAny(t, PlayfulToneWords) {
      FirstMatchFirstFiringWins(ToneRules, t, DefaultTone, 0);
    } else if ContainsAny(t, BoldToneWords) {
      FirstMatchFirstFiringWins(ToneRules, t, DefaultTone, 1);
    } else if ContainsAny(t, CalmToneWords) {
      FirstMatchFirstFiringWins(ToneRules, t, DefaultTone, 2);
    } else if ContainsAny(t, PremiumToneWords) {
      FirstMatchFirstFiringWins(ToneRules, t, DefaultTone, 3);
    } else {
      FirstMatchNoneFires(ToneRules, t, DefaultTone);
    }
  }

  /** The tone ignores the case of letters. */
  lemma PickToneIgnoresCase(a: string, b: string)
    requires EqualIgnoringCase(a, b)
    ensures PickTone(a) == PickTone(b)
  {
    ToLowerEqualIff(a, b);
  }

  // The fixed parts of the plan; the apostrophes are U+2019.
  const PlanHead: string :=
    "Here\U{2019}s a quick plan based on your idea:\n\n"
    + "1) Structure: Hero, features, social proof, pricing/CTA, FAQ, footer.\n"
    + "2) Tone: "
  const PlanTail: string :=
    ".\n"
    + "3) Colors: Derived from brand mood; see palette on the right.\n"
    + "4) Copy: I\U{2019}ll draft a strong headline and scannable bullets.\n\n"
    + "Want me to generate section copy next?"

  /** The string `mockClaudeReply(prompt)` resolves to. */
  function MockClaudeReply(prompt: string): string {
    PlanHead + PickTone(Trim(prompt)) + PlanTail
  }

  /** The reply is the fixed template with exactly the tone of the trimmed prompt between
      its two fixed parts, so the tone can be read back from the reply. */
  lemma ReplyIsTemplate(prompt: string)
    ensures var reply := MockClaudeReply(prompt);
      && |reply| == |PlanHead| + |PickTone(Trim(prompt))| + |PlanTail|
      && reply[..|PlanHead|] == PlanHead
      && reply[|PlanHead|..|reply| - |PlanTail|] == PickTone(Trim(prompt))
      && reply[|reply| - |PlanTail|..] == PlanTail
  {
    SpliceParts(PlanHead, PickTone(Trim(prompt)), PlanTail);
  }

  /** Two prompts get the same reply exactly when they get the same tone: nothing else of
      the prompt reaches the reply. */
  lemma SameReplyIffSameTone(a: string, b: string)
    ensures MockClaudeReply(a) == MockClaudeReply(b) <==> PickTone(Trim(a)) == PickTone(Trim(b))
  {
    ReplyIsTemplate(a);
    ReplyIsTemplate(b);
  }

  /** With no tone keyword, as in "hello", the tone is "clear and confident". */
  lemma HelloIsClearAndConfident(prompt: string)
    requires prompt == "hello"
    ensures PickTone(prompt) == DefaultTone
  {
    var t := ToLower(prompt);
    assert t == "hello";
    NoneOccur(t, PlayfulToneWords);
    NoneOccur(t, BoldToneWords);
    NoneOccur(t, CalmToneWords);
    NoneOccur(t, PremiumToneWords);
  }

  /** Lower-casing the sample prompt only changes its capital L. */
  lemma LowerOfBoldPrompt(prompt: string)
    requires prompt == "Let's go bold and energetic"
    ensures ToLower(prompt) == "let's go bold and energetic"
  {
    assert ToLower(prompt)[0] == 'l';
  }

  /** No playful keyword occurs in "let's go bold and energetic": none of their first
      letters p and f does. */
  lemma BoldTextNotPlayful(t: string)
    requires t == "let's go bold and energetic"
    ensures !ContainsAny(t, PlayfulToneWords)
  {
    NoneOccur(t, PlayfulToneWords);
  }

  /** "bold" occurs in "let's go bold and energetic", at position 9. */
  lemma BoldTextIsBold(t: string)
    requires t == "let's go bold and energetic"
    ensures ContainsAny(t, BoldToneWords)
  {
    ContainsAnyAt(t, BoldToneWords, 0, 9);
  }

  /** "Let's go bold and energetic" is classified bold and energetic. */
  lemma BoldPromptIsBold(prompt: string)
    requires prompt == "Let's go bold and energetic"
    ensures PickTone(prompt) == BoldTone
  {
    LowerOfBoldPrompt(prompt);
    BoldTextNotPlayful(ToLower(prompt));
    BoldTextIsBold(ToLower(prompt));
  }

  /** The reply to "hello" is the plan with the tone "clear and confident". */
  lemma HelloReply(prompt: string)
    requires prompt == "hello"
    ensures MockClaudeReply(prompt) == PlanHead + DefaultTone + PlanTail
  {
    TrimUnchanged(prompt);
    HelloIsClearAndConfident(prompt);
  }

  /** The reply to "Let's go bold and energetic" is the plan with the tone "bold and
      energetic". */
  lemma BoldPromptReply(prompt: string)
    requires prompt == "Let's go bold and energetic"
    ensures MockClaudeReply(prompt) == PlanHead + BoldTone + PlanTail
  {
    TrimUnchanged(prompt);
    BoldPromptIsBold(prompt);
  }
}
