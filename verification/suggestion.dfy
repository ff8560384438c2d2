/**
  The suggestion engine: from the conversation, the lower-cased text of the most recent
  user turn picks a five-colour palette (overwrite-wins-last over four keyword groups),
  the fixed list of six page sections, and a sample headline (first-match-wins over
  five keyword groups).
 */
module Suggestion {
  import opened Text
  import opened Selection

  datatype Role = User | Assistant

  /** One chat turn: `{ role, content }`. */
  datatype Turn = Turn(role: Role, content: string)

  /** What `pickPaletteFromConversation` returns: `{ colors, sections, sampleHeadline }`. */
  datatype PaletteSuggestion = PaletteSuggestion(colors: seq<string>, sections: seq<string>, sampleHeadline: string)

  // Palettes, in the order the source tries them.
  const VioletCyan: seq<string> := ["#7c3aed", "#22d3ee", "#0ea5e9", "#06b6d4", "#a78bfa"]
  const Greens: seq<string> := ["#0f766e", "#10b981", "#22c55e", "#84cc16", "#a3e635"]
  const DarkGold: seq<string> := ["#0f172a", "#1f2937", "#334155", "#fbbf24", "#eab308"]
  const BrightMix: seq<string> := ["#2563eb", "#22c55e", "#ef4444", "#f59e0b", "#a855f7"]
  const Energetic: seq<string> := ["#ef4444", "#f97316", "#22c55e", "#0ea5e9", "#a855f7"]

  const EcoWords: seq<string> := ["eco", "nature", "green", "sustain"]
  const LuxuryWords: seq<string> := ["luxury", "premium", "gold", "fashion"]
  const PlayfulWords: seq<string> := ["playful", "kids", "fun", "creative"]
  const EnergyWords: seq<string> := ["health", "fitness", "energy", "bold"]

  /** The palette rules in source order; under overwrite-wins-last the later ones win. */
  const PaletteRules: seq<Rule<seq<string>>> :=
    [Rule(EcoWords, Greens), Rule(LuxuryWords, DarkGold), Rule(PlayfulWords, BrightMix), Rule(EnergyWords, Energetic)]

  const Sections: seq<string> :=
    ["Hero with headline + CTA", "Feature grid", "Social proof", "Pricing", "FAQ", "Footer"]

  // Headlines. The hyphens in "AI-crafted" and "conversion-first" are U+2011 (non-breaking).
  const DefaultHeadline: string := "Launch your next idea with an AI\U{2011}crafted website."
  const FitnessHeadline: string := "Train smarter online with a site that converts sessions into signups."
  const ProductHeadline: string := "Turn product value into clear storytelling that drives trials."
  const PortfolioHeadline: string := "Show your work with a crisp, fast portfolio that stands out."
  const FoodHeadline: string := "A tasty site that makes bookings and orders effortless."
  const AgencyHeadline: string := "Pitch, prove, and book clients with a conversion\U{2011}first site."

  const FitnessWords: seq<string> := ["fitness", "gym", "coach"]
  const ProductWords: seq<string> := ["saas", "startup", "b2b", "product"]
  const PortfolioWords: seq<string> := ["portfolio", "designer", "photography"]
  const FoodWords: seq<string> := ["restaurant", "cafe", "food"]
  const AgencyWords: seq<string> := ["agency", "studio", "consult"]

  /** The headline rules in source order; under first-match-wins the earlier ones win. */
  const HeadlineRules: seq<Rule<string>> :=
    [Rule(FitnessWords, FitnessHeadline), Rule(ProductWords, ProductHeadline),
     Rule(PortfolioWords, PortfolioHeadline), Rule(FoodWords, FoodHeadline),
     Rule(AgencyWords, AgencyHeadline)]

  /** `suggestHeadline`: a chain of early returns, with the empty text answered first. */
  function SuggestHeadline(text: string): string {
    if text == [] then DefaultHeadline
    else if ContainsAny(text, FitnessWords) then FitnessHeadline
    else if ContainsAny(text, ProductWords) then ProductHeadline
    else if ContainsAny(text, PortfolioWords) then PortfolioHeadline
    else if ContainsAny(text, FoodWords) then FoodHeadline
    else if ContainsAny(text, AgencyWords) then AgencyHeadline
    else DefaultHeadline
  }

  /** The early-return chain is the first-match-wins policy over the headline rules with
      the default headline; the guard for empty text changes nothing, since no keyword
      occurs in the empty text. */
  lemma SuggestHeadlineIsFirstMatch(text: string)
    ensures SuggestHeadline(text) == FirstMatch(HeadlineRules, text, DefaultHeadline)
  {
    if text == [] {
      forall j | 0 <= j < |HeadlineRules| ensures !Fires(HeadlineRules[j], text) {
        NothingOccursInEmpty(HeadlineRules[j].keywords);
      }
      FirstMatchNoneFires(HeadlineRules, text, DefaultHeadline);
    } else if ContainsAny(text, FitnessWords) {
      FirstMatchFirstFiringWins(HeadlineRules, text, DefaultHeadline, 0);
    } else if ContainsAny(text, ProductWords) {
      FirstMatchFirstFiringWins(HeadlineRules, text, DefaultHeadline, 1);
    } else if ContainsAny(text, PortfolioWords) {
      FirstMatchFirstFiringWins(HeadlineRules, text, DefaultHeadline, 2);
    } else if ContainsAny(text, FoodWords) {
      FirstMatchFirstFiringWins(HeadlineRules, text, DefaultHeadline, 3);
    } else if ContainsAny(text, AgencyWords) {
      FirstMatchFirstFiringWins(HeadlineRules, text, DefaultHeadline, 4);
    } else {
      FirstMatchNoneFires(HeadlineRules, text, DefaultHeadline);
    }
  }

  /** Index of the turn that `[...messages].reverse().find((m) => m.role === "user")`
      finds: the last user turn, or none. */
  function LastUser(messages: seq<Turn>): (r: Option<nat>)
    ensures r.None? <==> forall i :: 0 <= i < |messages| ==> messages[i].role != User
    ensures r.Some? ==> r.value < |messages| && messages[r.value].role == User
                        && forall j :: r.value < j < |messages| ==> messages[j].role != User
  {
    if messages == [] then None
    else if messages[|messages| - 1].role == User then Some(|messages| - 1)
    else LastUser(messages[..|messages| - 1])
  }

  /** `(lastUser?.content || "").toLowerCase()`: the text every test looks at. */
  function SignalText(messages: seq<Turn>): string {
    match LastUser(messages)
    case Some(i) => ToLower(messages[i].content)
    case None => ""
  }

  /** Without a user turn the tests look at the empty text. */
  lemma NoUserTurnNoSignal(messages: seq<Turn>)
    requires forall i :: 0 <= i < |messages| ==> messages[i].role != User
    ensures SignalText(messages) == []
  {
    assert LastUser(messages) == None;
  }

  /** The suggestion the component derives from a conversation: the overwrite-wins-last
      palette, the fixed sections and the first-match-wins headline of its signal text. */
  function Suggest(messages: seq<Turn>): PaletteSuggestion {
    SuggestFor(SignalText(messages))
  }

  /** The suggestion for a given signal text. */
  function SuggestFor(text: string): PaletteSuggestion {
    PaletteSuggestion(Overwrite(PaletteRules, text, VioletCyan), Sections, SuggestHeadline(text))
  }

  /** `pickPaletteFromConversation`: the local `colors` starts as the violet/cyan family
      and each of the four tests that passes reassigns it. */
  method PickPaletteFromConversation(messages: seq<Turn>) returns (s: PaletteSuggestion)
    ensures s == Suggest(messages)
  {
    var lastUser := LastUser(messages);
    var text := if lastUser.Some? then ToLower(messages[lastUser.value].content) else "";

    var colors := VioletCyan;
    assert colors == Overwrite(PaletteRules[..0], text, VioletCyan);
    if ContainsAny(text, EcoWords) { colors := Greens; }
    assert colors == Overwrite(PaletteRules[..1], text, VioletCyan);
    if ContainsAny(text, LuxuryWords) { colors := DarkGold; }
    assert PaletteRules[..2][..1] == PaletteRules[..1];
    assert colors == Overwrite(PaletteRules[..2], text, VioletCyan);
    if ContainsAny(text, PlayfulWords) { colors := BrightMix; }
    assert PaletteRules[..3][..2] == PaletteRules[..2];
    assert colors == Overwrite(PaletteRules[..3], text, VioletCyan);
    if ContainsAny(text, EnergyWords) { colors := Energetic; }
    assert PaletteRules[..4][..3] == PaletteRules[..3];
    assert PaletteRules[..4] == PaletteRules;

    var sampleHeadline := SuggestHeadline(text);
    s := PaletteSuggestion(colors, Sections, sampleHeadline);
  }

  /** A colour as the source writes it: `#` followed by six lower-case hex digits. */
  predicate IsHexColour(c: string) {
    |c| == 7 && c[0] == '#' && forall i :: 1 <= i < 7 ==> c[i] in "0123456789abcdef"
  }

  /** Five `#rrggbb` colours. */
  predicate IsPalette(colors: seq<string>) {
    |colors| == 5 && forall i :: 0 <= i < 5 ==> IsHexColour(colors[i])
  }

  /** Each of the five palettes the source writes out is five `#rrggbb` colours. */
  lemma PalettesAreWellFormed()
    ensures IsPalette(VioletCyan) && IsPalette(Greens) && IsPalette(DarkGold)
    ensures IsPalette(BrightMix) && IsPalette(Energetic)
  {
  }

  /** Every suggestion has exactly five `#rrggbb` colours and exactly the six fixed
      sections in source order, whatever the conversation. */
  lemma SuggestionShape(messages: seq<Turn>)
    ensures IsPalette(Suggest(messages).colors)
    ensures Suggest(messages).sections == Sections && |Sections| == 6
  {
    var colors := Suggest(messages).colors;
    assert colors in {VioletCyan, Greens, DarkGold, BrightMix, Energetic};
    PalettesAreWellFormed();
  }

  /** Empty signal text (no user turn yet) gives the violet/cyan palette and the default
      headline: no keyword occurs in it. */
  lemma EmptyTextGivesDefaults()
    ensures SuggestFor([]).colors == VioletCyan
    ensures SuggestFor([]).sampleHeadline == DefaultHeadline
  {
    forall j | 0 <= j < |PaletteRules| ensures !Fires(PaletteRules[j], []) {
      NothingOccursInEmpty(PaletteRules[j].keywords);
    }
    OverwriteNoneFires(PaletteRules, [], VioletCyan);
  }

  /** With no user turn at all (the conversation the component starts with), the
      suggestion is the violet/cyan palette with the default headline. */
  lemma NoUserTurnGivesDefaults(messages: seq<Turn>)
    requires forall i :: 0 <= i < |messages| ==> messages[i].role != User
    ensures Suggest(messages).colors == VioletCyan
    ensures Suggest(messages).sampleHeadline == DefaultHeadline
  {
    NoUserTurnNoSignal(messages);
    EmptyTextGivesDefaults();
  }

  /** When the later part `s` of a conversation holds a user turn, the last user turn of
      the whole conversation is the last user turn of `s`. */
  lemma {:induction false} LastUserInSuffix(p: seq<Turn>, s: seq<Turn>)
    requires exists i :: 0 <= i < |s| && s[i].role == User
    ensures LastUser(s).Some?
    ensures LastUser(p + s) == Some(|p| + LastUser(s).value)
    decreases |s|
  {
    if s[|s| - 1].role != User {
      var i :| 0 <= i < |s| && s[i].role == User;
      assert s[..|s| - 1][i] == s[i];
      DropLastOfAppend(p, s);
      LastUserInSuffix(p, s[..|s| - 1]);
    }
  }

  /** Dropping the last element of `p + s`, with `s` non-empty, drops it from `s`. */
  lemma DropLastOfAppend<T>(p: seq<T>, s: seq<T>)
    requires s != []
    ensures (p + s)[..|p + s| - 1] == p + s[..|s| - 1]
  {
  }

  /** Only the last user turn matters: turns before it, user or assistant, can be anything. */
  lemma EarlierTurnsDoNotMatter(p1: seq<Turn>, p2: seq<Turn>, s: seq<Turn>)
    requires exists i :: 0 <= i < |s| && s[i].role == User
    ensures SignalText(p1 + s) == SignalText(p2 + s)
    ensures Suggest(p1 + s) == Suggest(p2 + s)
  {
    LastUserInSuffix(p1, s);
    LastUserInSuffix(p2, s);
    var k := LastUser(s).value;
    assert (p1 + s)[|p1| + k] == s[k] && (p2 + s)[|p2| + k] == s[k];
  }

  /** Appending an assistant turn (a reply) leaves the suggestion unchanged. */
  lemma AppendAssistantKeepsSuggestion(messages: seq<Turn>, reply: string)
    ensures SignalText(messages + [Turn(Assistant, reply)]) == SignalText(messages)
    ensures Suggest(messages + [Turn(Assistant, reply)]) == Suggest(messages)
  {
    var m := messages + [Turn(Assistant, reply)];
    assert m[..|m| - 1] == messages;
    match LastUser(messages)
    case Some(i) => assert m[i] == messages[i];
    case None =>
  }

  /** Matching ignores case: two last user turns that differ only in the case of letters
      give the same suggestion. */
  lemma SuggestIgnoresCase(p: seq<Turn>, c1: string, c2: string)
    requires EqualIgnoringCase(c1, c2)
    ensures Suggest(p + [Turn(User, c1)]) == Suggest(p + [Turn(User, c2)])
  {
    ToLowerEqualIff(c1, c2);
    assert LastUser(p + [Turn(User, c1)]) == Some(|p|);
    assert LastUser(p + [Turn(User, c2)]) == Some(|p|);
  }

  /** Overwrite-wins-last for the palette, read backwards: the energetic group is tested
      last in the source and so wins over every other group, then the playful group,
      then luxury, then eco, and the violet/cyan family only when no group matches. */
  lemma PaletteIsLastMatchingGroup(messages: seq<Turn>)
    ensures var text := SignalText(messages);
      Suggest(messages).colors ==
        if ContainsAny(text, EnergyWords) then Energetic
        else if ContainsAny(text, PlayfulWords) then BrightMix
        else if ContainsAny(text, LuxuryWords) then DarkGold
        else if ContainsAny(text, EcoWords) then Greens
        else VioletCyan
  {
    var text := SignalText(messages);
    if ContainsAny(text, EnergyWords) {
      OverwriteLastFiringWins(PaletteRules, text, VioletCyan, 3);
    } else if ContainsAny(text, PlayfulWords) {
      OverwriteLastFiringWins(PaletteRules, text, VioletCyan, 2);
    } else if ContainsAny(text, LuxuryWords) {
      OverwriteLastFiringWins(PaletteRules, text, VioletCyan, 1);
    } else if ContainsAny(text, EcoWords) {
      OverwriteLastFiringWins(PaletteRules, text, VioletCyan, 0);
    } else {
      OverwriteNoneFires(PaletteRules, text, VioletCyan);
    }
  }

  /** The two policies really differ on the same text: a last user turn "Eco BOLD" matches
      both the eco and the energy groups; the palette (last match wins) is the energetic
      one, where first-match-wins over the same rules would have given the greens. */
  lemma EcoAndBoldGivesEnergetic(p: seq<Turn>)
    ensures var m := p + [Turn(User, "Eco BOLD")];
      && ContainsAny(SignalText(m), EcoWords) && ContainsAny(SignalText(m), EnergyWords)
      && Suggest(m).colors == Energetic
      && FirstMatch(PaletteRules, SignalText(m), VioletCyan) == Greens
  {
    var m := p + [Turn(User, "Eco BOLD")];
    assert LastUser(m) == Some(|p|);
    var text := SignalText(m);
    assert text == "eco bold";
    ContainsAnyAt(text, EcoWords, 0, 0);
    ContainsAnyAt(text, EnergyWords, 3, 4);
    OverwriteLastFiringWins(PaletteRules, text, VioletCyan, 3);
    FirstMatchFirstFiringWins(PaletteRules, text, VioletCyan, 0);
  }

  /** Headline selection stops at the first match: a last user turn "Fitness SaaS" matches
      both the fitness and the product groups and gets the fitness headline. */
  lemma FitnessBeforeSaas(p: seq<Turn>)
    ensures var m := p + [Turn(User, "Fitness SaaS")];
      && ContainsAny(SignalText(m), FitnessWords) && ContainsAny(SignalText(m), ProductWords)
      && Suggest(m).sampleHeadline == FitnessHeadline
  {
    var m := p + [Turn(User, "Fitness SaaS")];
    assert LastUser(m) == Some(|p|);
    var text := SignalText(m);
    assert text == "fitness saas";
    ContainsAnyAt(text, FitnessWords, 0, 0);
    ContainsAnyAt(text, ProductWords, 0, 8);
    SuggestHeadlineIsFirstMatch(text);
    FirstMatchFirstFiringWins(HeadlineRules, text, DefaultHeadline, 0);
  }
}
