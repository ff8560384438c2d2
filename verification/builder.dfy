/**
  The component state of the AI site designer and the transitions of `handleSend`.
  The state is the transcript `messages` (append-only), the text box `input` and the
  `loading` flag. `handleSend` is asynchronous: its part before `await` is `Send`, and
  its part after the reply resolves is `Complete`; between the two the component stays
  responsive (the user may type), which is why they are two steps.
 */
module Builder {
  import opened Text
  import opened Suggestion
  import opened Reply

  /** The assistant's opening turn; the apostrophes are U+2019 and the dashes U+2014. */
  const Greeting: string :=
    "Hi! I\U{2019}m your AI site designer. Tell me about the website you want\U{2014}purpose, "
    + "audience, vibe\U{2014}and I\U{2019}ll propose a layout, copy, and color theme."

  /** What `handleSend` may store as a user turn: non-empty and already trimmed. */
  predicate IsPrompt(p: string) {
    p != [] && Trim(p) == p
  }

  /** The turns of completed send/reply cycles: each prompt followed by its reply. */
  function Exchanges(prompts: seq<string>): (turns: seq<Turn>)
    ensures |turns| == 2 * |prompts|
  {
    if prompts == [] then []
    else
      var p := prompts[|prompts| - 1];
      Exchanges(prompts[..|prompts| - 1]) + [Turn(User, p), Turn(Assistant, MockClaudeReply(p))]
  }

  /** Completed cycles alternate strictly: turn `2k` is the `k`-th prompt as a user turn
      and turn `2k + 1` is the reply generated for it. */
  lemma {:induction false} ExchangesAt(prompts: seq<string>, k: int)
    requires 0 <= k < |prompts|
    ensures Exchanges(prompts)[2 * k] == Turn(User, prompts[k])
    ensures Exchanges(prompts)[2 * k + 1] == Turn(Assistant, MockClaudeReply(prompts[k]))
  {
    if k < |prompts| - 1 {
      var init := prompts[..|prompts| - 1];
      ExchangesAt(init, k);
      assert Exchanges(prompts)[..2 * |init|] == Exchanges(init);
    }
  }

  /** Regrouping a concatenation: the last two turns split off one at a time. */
  lemma Regroup<T>(g: seq<T>, e: seq<T>, u: T, a: T)
    ensures g + (e + [u, a]) == ((g + e) + [u]) + [a]
  {
  }

  /** Appending two turns one after the other is appending the pair. */
  lemma AppendPair<T>(s: seq<T>, u: T, a: T)
    ensures (s + [u]) + [a] == s + [u, a]
  {
  }

  /** A prompt followed by its reply decides the text the suggestion is made from,
      whatever came before. */
  lemma PromptThenReplyDecides(before: seq<Turn>, p: string, reply: string)
    ensures SignalText((before + [Turn(User, p)]) + [Turn(Assistant, reply)]) == ToLower(p)
  {
    AppendAssistantKeepsSuggestion(before + [Turn(User, p)], reply);
    assert LastUser(before + [Turn(User, p)]) == Some(|before|);
  }

  /** The last completed cycle is the last two turns of the transcript. */
  lemma LastCycle(start: seq<Turn>, prompts: seq<string>)
    requires prompts != []
    ensures var p := prompts[|prompts| - 1];
      start + Exchanges(prompts)
      == ((start + Exchanges(prompts[..|prompts| - 1])) + [Turn(User, p)]) + [Turn(Assistant, MockClaudeReply(p))]
  {
    var p := prompts[|prompts| - 1];
    Regroup(start, Exchanges(prompts[..|prompts| - 1]), Turn(User, p), Turn(Assistant, MockClaudeReply(p)));
  }

  /** After at least one completed cycle, the suggestion is made from the last prompt
      alone: earlier prompts, the turns before the cycles (the greeting) and all replies
      play no part. */
  lemma SuggestionAfterCycles(start: seq<Turn>, prompts: seq<string>)
    requires prompts != []
    ensures SignalText(start + Exchanges(prompts)) == ToLower(prompts[|prompts| - 1])
    ensures Suggest(start + Exchanges(prompts)) == SuggestFor(ToLower(prompts[|prompts| - 1]))
  {
    var p := prompts[|prompts| - 1];
    LastCycle(start, prompts);
    PromptThenReplyDecides(start + Exchanges(prompts[..|prompts| - 1]), p, MockClaudeReply(p));
  }

  /** Before the first completed cycle, with opening turns (the greeting) that hold no
      user turn, the suggestion is the violet/cyan palette with the default headline. */
  lemma BeforeFirstCycle(start: seq<Turn>, prompts: seq<string>)
    requires prompts == []
    requires forall i :: 0 <= i < |start| ==> start[i].role != User
    ensures Suggest(start + Exchanges(prompts)).colors == VioletCyan
    ensures Suggest(start + Exchanges(prompts)).sampleHeadline == DefaultHeadline
  {
    NoUserTurnNoSignal(start + Exchanges(prompts));
    EmptyTextGivesDefaults();
  }

  /** With no reply pending, the suggestion is the default one before the first cycle and
      the one for the last prompt afterwards. */
  lemma SettledProposal(start: seq<Turn>, prompts: seq<string>)
    requires forall i :: 0 <= i < |start| ==> start[i].role != User
    ensures prompts == [] ==> && Suggest(start + Exchanges(prompts)).colors == VioletCyan
                              && Suggest(start + Exchanges(prompts)).sampleHeadline == DefaultHeadline
    ensures prompts != [] ==> Suggest(start + Exchanges(prompts)) == SuggestFor(ToLower(prompts[|prompts| - 1]))
  {
    if prompts == [] {
      BeforeFirstCycle(start, prompts);
    } else {
      SuggestionAfterCycles(start, prompts);
    }
  }

  /** The transcript after the completed cycles of `prompts`: the greeting, then each
      prompt followed by its reply. */
  function Transcript(prompts: seq<string>): (turns: seq<Turn>)
    ensures |turns| == 1 + 2 * |prompts|
  {
    [Turn(Assistant, Greeting)] + Exchanges(prompts)
  }

  class AIBuilder {
    var messages: seq<Turn>
    var input: string
    var loading: bool
    /** The trimmed prompt held by the `handleSend` call that is suspended at `await`. */
    var awaiting: Option<string>
    /** The prompts of the completed send/reply cycles, oldest first. */
    ghost var prompts: seq<string>

    /** The transcript is the greeting, then one user turn and one reply per completed
        cycle, then the user turn of the pending cycle, if any; `loading` is set exactly
        while a reply is pending, so at most one is. */
    ghost predicate Valid()
      reads this
    {
      && (loading <==> awaiting.Some?)
      && (forall i :: 0 <= i < |prompts| ==> IsPrompt(prompts[i]))
      && (awaiting.Some? ==> IsPrompt(awaiting.value))
      && messages == (if awaiting.Some? then Transcript(prompts) + [Turn(User, awaiting.value)]
                      else Transcript(prompts))
    }

    /** The initial state: the greeting, an empty text box, nothing pending. */
    constructor ()
      ensures Valid()
      ensures messages == [Turn(Assistant, Greeting)] && input == [] && !loading
      ensures prompts == [] && awaiting == None
    {
      messages := [Turn(Assistant, Greeting)];
      input := "";
      loading := false;
      awaiting := None;
      prompts := [];
    }

    /** The text box's `onChange`: replaces the input, also while a reply is pending. */
    method SetInput(value: string)
      requires Valid()
      modifies this`input
      ensures Valid() && input == value
    {
      input := value;
    }

    /** `handleSend` up to its `await`: ignored when the trimmed input is empty or a reply
        is pending; otherwise appends the trimmed input as a user turn, clears the input,
        sets `loading` and starts the reply for that prompt. */
    method Send() returns (sent: bool)
      requires Valid()
      modifies this
      ensures Valid()
      ensures sent <==> Trim(old(input)) != [] && !old(loading)
      ensures !sent ==> && messages == old(messages) && input == old(input)
                        && loading == old(loading) && awaiting == old(awaiting)
                        && prompts == old(prompts)
      ensures sent ==> && messages == old(messages) + [Turn(User, Trim(old(input)))]
                       && input == [] && loading && awaiting == Some(Trim(old(input)))
                       && prompts == old(prompts)
    {
      var trimmed := Trim(input);
      if trimmed == [] || loading {
        return false;
      }
      TrimIdempotent(input);
      messages := messages + [Turn(User, trimmed)];
      input := "";
      loading := true;
      awaiting := Some(trimmed);
      sent := true;
    }

    /** `handleSend` after its `await`: appends the reply to the pending prompt as an
        assistant turn and clears `loading`; the pending cycle becomes a completed one. */
    method Complete()
      requires Valid() && loading
      modifies this
      ensures Valid()
      ensures messages == old(messages) + [Turn(Assistant, MockClaudeReply(old(awaiting).value))]
      ensures !loading && awaiting == None && input == old(input)
      ensures prompts == old(prompts) + [old(awaiting).value]
    {
      var prompt := awaiting.value;
      var reply := MockClaudeReply(prompt);
      ghost var newPrompts := prompts + [prompt];
      assert newPrompts[..|newPrompts| - 1] == prompts;
      messages := messages + [Turn(Assistant, reply)];
      loading := false;
      awaiting := None;
      prompts := newPrompts;
    }

    /** One whole `handleSend` when nothing else happens while the reply is pending: a
        send that is not ignored grows the transcript by exactly two turns, the trimmed
        prompt and its reply, and leaves nothing pending. */
    method HandleSend() returns (sent: bool)
      requires Valid()
      modifies this
      ensures Valid()
      ensures sent <==> Trim(old(input)) != [] && !old(loading)
      ensures !sent ==> && messages == old(messages) && input == old(input) && loading == old(loading)
                        && awaiting == old(awaiting) && prompts == old(prompts)
      ensures sent ==> var p := Trim(old(input));
        && messages == old(messages) + [Turn(User, p), Turn(Assistant, MockClaudeReply(p))]
        && |messages| == |old(messages)| + 2
        && input == [] && !loading && prompts == old(prompts) + [p]
    {
      ghost var before := messages;
      sent := Send();
      if sent {
        ghost var p := awaiting.value;
        Complete();
        AppendPair(before, Turn(User, p), Turn(Assistant, MockClaudeReply(p)));
      }
    }

    /** `useMemo(() => pickPaletteFromConversation(messages))`: the suggestion shown. */
    method ProposedPalette() returns (s: PaletteSuggestion)
      requires Valid()
      ensures s == Suggest(messages)
      ensures !loading && prompts == [] ==> s.colors == VioletCyan && s.sampleHeadline == DefaultHeadline
      ensures !loading && prompts != [] ==> s == SuggestFor(ToLower(prompts[|prompts| - 1]))
    {
      s := PickPaletteFromConversation(messages);
      if !loading {
        SettledProposal([Turn(Assistant, Greeting)], prompts);
      }
    }
  }
}
