# AI site designer: verified model

This project models the rule-based "AI site designer" chat component of a React
landing page. The component keeps a transcript of user and assistant turns, a text box
and a `loading` flag. Sending a prompt appends it to the transcript. A simulated
assistant reply follows, and its tone is classified from keywords in the prompt. In
parallel the component proposes a design for the site: a five-colour palette, a fixed
list of page sections and a sample headline. That design is computed from the lower-cased
text of the most recent user turn.

The model has five modules:

- `Text` (`text.dfy`): the string operations the component relies on.
  - JavaScript `trim`, with the exact WhiteSpace and LineTerminator set.
  - `toLowerCase`, on ASCII letters.
  - The unanchored regular-expression test `/(k1|k2|...)/.test(text)`. It is a
    substring search over the alternatives (`Contains`, `ContainsAny`), proved equal to
    "some alternative occurs".
- `Selection` (`selection.dfy`): the two ways an ordered list of keyword rules picks
  one answer.
  - Overwrite, last match wins (`Overwrite`): the sequence of `if (...) colors = ...`
    lines.
  - First match wins (`FirstMatch`): the chains of early `return`s.
  - Lemmas say exactly which rule decides under each policy.
- `Suggestion` (`suggestion.dfy`): `pickPaletteFromConversation` and `suggestHeadline`.
  - The last-user-turn search (`LastUser`) and the lower-cased text every test looks
    at (`SignalText`, line 162 of the component).
  - The palette, written as the source's sequence of reassignments in
    `PickPaletteFromConversation` and proved equal to the overwrite policy over the four
    palette groups.
  - The six sections.
  - The first-match headline over the five headline groups (`SuggestHeadline`, the
    model of `suggestHeadline`).
- `Reply` (`reply.dfy`): `pickTone` as `PickTone` (first match over four tone groups
  with a fallback label), and the reply template of `mockClaudeReply` as
  `MockClaudeReply`.
- `Builder` (`builder.dfy`): the component state as a class `AIBuilder` with the
  fields `messages`, `input` and `loading`.
  - `handleSend` is split at its `await` into `Send` and `Complete`.
  - `HandleSend` is one uninterrupted cycle.
  - The invariant `Valid` says the transcript is always the greeting, followed by one
    prompt and one reply per completed cycle, followed by at most one pending prompt.
    `loading` is set exactly while a prompt is pending.

Strings are `seq<char>`. The apostrophes, dashes and non-breaking hyphens of the source
strings are written as the Unicode escapes they are (U+2019, U+2014, U+2011).

## Model

| member | source | states |
|---|---|---|
| Text.TrimStartShape | src/components/AIBuilder.jsx:26 | leading-whitespace removal keeps a suffix; everything cut off is whitespace; the result does not start with whitespace |
| Text.TrimEndShape | src/components/AIBuilder.jsx:26 | trailing-whitespace removal keeps a prefix; everything cut off is whitespace; the result does not end with whitespace |
| Text.TrimShape | src/components/AIBuilder.jsx:26 | `trim` returns the slice left after cutting whitespace off both ends; it neither starts nor ends with whitespace; it is empty exactly when the input is all whitespace (the `!trimmed` guard) |
| Text.TrimUnchanged | src/components/AIBuilder.jsx:196 | text without whitespace at either end is unchanged by `trim` |
| Text.TrimIdempotent | src/components/AIBuilder.jsx:26-35 | trimming twice equals trimming once, so `mockClaudeReply`'s own `trim` of the already-trimmed prompt changes nothing |
| Text.ToLowerIsLower | src/components/AIBuilder.jsx:162 | lower-cased text has no upper-case letter and lower-casing it again changes nothing |
| Text.LowerCharEqualIff | src/components/AIBuilder.jsx:162 | two characters lower-case to the same character if and only if they are equal or an ASCII capital and its small letter |
| Text.ToLowerEqualIff | src/components/AIBuilder.jsx:162 | two texts lower-case to the same string if and only if, position by position, their characters are equal or an ASCII capital and its small letter |
| Text.ContainsIffOccurs | src/components/AIBuilder.jsx:165 | the substring search succeeds if and only if the keyword occurs at some position of the text |
| Text.ContainsAnyIffSomeOccurs | src/components/AIBuilder.jsx:165-168 | an alternation test succeeds if and only if one of its alternatives occurs in the text |
| Text.NothingOccursInEmpty | src/components/AIBuilder.jsx:185 | no non-empty keyword is found in the empty text |
| Selection.Overwrite | src/components/AIBuilder.jsx:164-168 | the result of a sequence of overwriting `if`s is the default or the result of one of the rules |
| Selection.FirstMatch | src/components/AIBuilder.jsx:184-192 | the result of an early-return chain is the default or the result of one of the rules |
| Selection.OverwriteLastFiringWins | src/components/AIBuilder.jsx:164-168 | under overwriting, a firing rule with no firing rule after it decides, whatever earlier rules do |
| Selection.OverwriteNoneFires | src/components/AIBuilder.jsx:164 | under overwriting, the initial value survives when no rule fires |
| Selection.FirstMatchFirstFiringWins | src/components/AIBuilder.jsx:186-190 | under early return, a firing rule with no firing rule before it decides, whatever later rules do |
| Selection.FirstMatchNoneFires | src/components/AIBuilder.jsx:191 | under early return, the fallback is returned when no rule fires |
| Suggestion.SuggestHeadlineIsFirstMatch | src/components/AIBuilder.jsx:184-192 | `suggestHeadline` is first-match-wins over fitness, product, portfolio, food, agency with the default headline; the empty-text guard agrees with the fall-through |
| Suggestion.LastUser | src/components/AIBuilder.jsx:161 | the reverse search finds nothing exactly when no turn has role user; otherwise it finds a user turn after which no user turn follows |
| Suggestion.NoUserTurnNoSignal | src/components/AIBuilder.jsx:161-162 | with no user turn the text tested is the empty string |
| Suggestion.PickPaletteFromConversation | src/components/AIBuilder.jsx:160-182 | the step-by-step reassignment of `colors` plus sections and headline yields the overwrite palette, the six sections and the first-match headline of the last user turn's lower-cased text |
| Suggestion.PalettesAreWellFormed | src/components/AIBuilder.jsx:164-168 | each of the five palettes is five `#rrggbb` colours |
| Suggestion.SuggestionShape | src/components/AIBuilder.jsx:164-181 | every suggestion has exactly five `#rrggbb` colours and exactly the six fixed sections in order, for every conversation |
| Suggestion.EmptyTextGivesDefaults | src/components/AIBuilder.jsx:162-185 | empty text gives the violet/cyan palette and the default headline |
| Suggestion.NoUserTurnGivesDefaults | src/components/AIBuilder.jsx:161-164 | a conversation without user turns gives the violet/cyan palette and the default headline |
| Suggestion.LastUserInSuffix | src/components/AIBuilder.jsx:161 | when the later part of a conversation holds a user turn, the search finds that part's last user turn, shifted by the length of the earlier part |
| Suggestion.EarlierTurnsDoNotMatter | src/components/AIBuilder.jsx:161-162 | turns before the last user turn, of any role and content, do not affect the tested text or the suggestion |
| Suggestion.AppendAssistantKeepsSuggestion | src/components/AIBuilder.jsx:161-162 | appending an assistant reply leaves the tested text and the suggestion unchanged |
| Suggestion.SuggestIgnoresCase | src/components/AIBuilder.jsx:162 | last user turns that differ only in letter case give the same suggestion |
| Suggestion.PaletteIsLastMatchingGroup | src/components/AIBuilder.jsx:164-168 | the palette is that of the last group in source order whose keyword occurs: energetic over playful over luxury over eco, violet/cyan when none does |
| Suggestion.EcoAndBoldGivesEnergetic | src/components/AIBuilder.jsx:165-168 | "Eco BOLD" matches eco and energy and gets the energetic palette, where first-match-wins would give the greens |
| Suggestion.FitnessBeforeSaas | src/components/AIBuilder.jsx:186-187 | "Fitness SaaS" matches fitness and product and gets the fitness headline |
| Reply.PickTone | src/components/AIBuilder.jsx:208-214 | the tone is always one of the five labels |
| Reply.PickToneIsFirstMatch | src/components/AIBuilder.jsx:208-214 | `pickTone` is first-match-wins over playful, bold, calm, premium on the lower-cased text, with "clear and confident" as fallback |
| Reply.PickToneIgnoresCase | src/components/AIBuilder.jsx:209-212 | texts that differ only in letter case get the same tone |
| Reply.ReplyIsTemplate | src/components/AIBuilder.jsx:194-202 | the reply is the fixed template head, the tone of the trimmed prompt and the fixed template tail, and each part can be cut back out |
| Reply.SameReplyIffSameTone | src/components/AIBuilder.jsx:196-202 | two prompts get the same reply if and only if their trimmed texts get the same tone |
| Reply.HelloIsClearAndConfident | src/components/AIBuilder.jsx:209-213 | "hello" matches no tone group and gets "clear and confident" |
| Reply.BoldPromptIsBold | src/components/AIBuilder.jsx:209-210 | "Let's go bold and energetic" matches no playful keyword and gets "bold and energetic" |
| Reply.HelloReply | src/components/AIBuilder.jsx:194-213 | the reply to "hello" is exactly the plan with the tone "clear and confident" |
| Reply.BoldPromptReply | src/components/AIBuilder.jsx:194-210 | the reply to "Let's go bold and energetic" is exactly the plan with the tone "bold and energetic" |
| Builder.Exchanges | src/components/AIBuilder.jsx:29-37 | completed cycles contribute exactly two turns each |
| Builder.ExchangesAt | src/components/AIBuilder.jsx:29-37 | in completed cycles, turn 2k is the k-th prompt as a user turn and turn 2k+1 is the reply generated for it |
| Builder.PromptThenReplyDecides | src/components/AIBuilder.jsx:161-162 | after a prompt and its reply, the text tested is the lower-cased prompt, whatever came before |
| Builder.SuggestionAfterCycles | src/components/AIBuilder.jsx:29-40 | after at least one completed cycle the text tested is the lower-cased last prompt, and the suggestion is the one for that text |
| Builder.BeforeFirstCycle | src/components/AIBuilder.jsx:8-14 | before any completed cycle, with opening turns that hold no user turn (the greeting), the suggestion is the violet/cyan palette with the default headline |
| Builder.SettledProposal | src/components/AIBuilder.jsx:40 | with no reply pending, the suggestion is the default before the first cycle and the one for the last prompt afterwards |
| Builder.Transcript | src/components/AIBuilder.jsx:8-37 | the settled transcript holds the greeting and two turns per completed cycle |
| Builder.AIBuilder.constructor | src/components/AIBuilder.jsx:8-16 | the initial state is the greeting alone, an empty input and `loading` false, and satisfies the invariant |
| Builder.AIBuilder.SetInput | src/components/AIBuilder.jsx:94 | the text box may be changed at any time, also while a reply is pending; only `input` changes |
| Builder.AIBuilder.Send | src/components/AIBuilder.jsx:25-32 | a send is accepted exactly when the trimmed input is non-empty and no reply is pending; if not, nothing changes; if so, exactly one user turn with the trimmed input is appended, input is cleared and `loading` is set |
| Builder.AIBuilder.Complete | src/components/AIBuilder.jsx:35-37 | completion appends exactly one assistant turn holding `mockClaudeReply` of the pending prompt, clears `loading`, keeps earlier turns and input, and keeps the invariant |
| Builder.AIBuilder.HandleSend | src/components/AIBuilder.jsx:25-38 | an accepted send followed by its completion grows the transcript by exactly two turns, the trimmed prompt and its reply, and leaves nothing pending; an ignored send changes nothing |
| Builder.AIBuilder.ProposedPalette | src/components/AIBuilder.jsx:40 | the proposal shown is the suggestion for the transcript; with nothing pending it is the default before the first cycle and is made from the last prompt afterwards |

## Left out

- Rendering and styling: the markup of the component, the other page sections and the
  app shell. They are presentation only.
- The auto-scroll effect, which only mutates the DOM.
- The 650 ms timer and the promise around the reply. `Complete` is the step that runs
  once the promise resolves. Real time is not modelled.
- The Enter-key handler. It calls the same `handleSend`, so it adds nothing beyond
  `HandleSend`.
- React's asynchronous state updates. `handleSend` reads `input` and `loading` from
  the render it was created in, and `setMessages` is queued. The model applies every
  update at once, in program order. A second send between a render and the next render
  is therefore not modelled.
- Complete: the source's `await` yields the reply string. The model computes it as
  `MockClaudeReply` of the prompt the pending send holds, so no other reply can arrive.
- ToLower: only ASCII letters are lower-cased. JavaScript's `toLowerCase` also maps
  non-ASCII letters, for example the Kelvin sign to "k". The keywords are ASCII, so the
  model can differ from the source only on text with such letters.
- Text.Contains: a regular expression is treated only as an alternation of literal
  keywords. That is the only kind the component uses.
