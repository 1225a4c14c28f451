/** The turn controller: a chat submission, the request it sends, the reply it
    stores, and whole sessions as sequences of user events. */
module Chat {
  import opened Wrappers
  import Config
  import Stream
  import opened Session

  /** The sidebar values a submission uses: the selected model and the
      max-tokens slider value. */
  datatype Settings = Settings(model: Config.ModelId, maxTokens: nat)

  /** Values the sidebar widgets can produce: a slider position within the
      selected model's range. */
  predicate ValidSettings(cfg: Settings) {
    Config.SliderAccepts(Config.Tokens(cfg.model), cfg.maxTokens)
  }

  /** The streamed completion request: the model (sent as its `WireId`), the
      whole transcript, the token limit, and streaming switched on. */
  datatype Request = Request(model: Config.ModelId, messages: seq<Turn>, maxTokens: nat, stream: bool)

  /** What one submission produces: the next session state and the request it
      issued, if any. */
  datatype Exchange = Exchange(state: State, request: Option<Request>)

  /** A chat-box submission. A non-truthy input (absent or empty) does nothing.
      Otherwise the counter is incremented, the literal input is appended as a
      user turn, one request carrying the whole transcript is issued, and the
      assembled reply (or the apology, on failure) is appended as the
      assistant turn. */
  function Submit(s: State, input: Option<string>, cfg: Settings, c: Stream.Completion): (x: Exchange)
    requires !s.showWelcome
    ensures !Truthy(input) ==> x == Exchange(s, None)
    ensures Truthy(input) ==>
      && x.request.Some?
      && x.request.value.model == cfg.model
      && x.request.value.maxTokens == cfg.maxTokens
      && x.request.value.stream
      && x.request.value.messages == s.messages + [Turn(User, input.value)]
      && x.state.messages == x.request.value.messages + [Turn(Assistant, Stream.Reply(c))]
      && x.state.chatCounter == s.chatCounter + 1
      && x.state.(messages := s.messages, chatCounter := s.chatCounter) == s
    ensures forall persona :: WellFormed(s, persona) ==> WellFormed(x.state, persona)
  {
    if !Truthy(input) then Exchange(s, None)
    else
      var sent := s.messages + [Turn(User, input.value)];
      var req := Request(cfg.model, sent, cfg.maxTokens, true);
      var ms := sent + [Turn(Assistant, Stream.Reply(c))];
      UserTurnsSnoc(s.messages, Turn(User, input.value));
      UserTurnsSnoc(sent, Turn(Assistant, Stream.Reply(c)));
      Exchange(s.(chatCounter := s.chatCounter + 1, messages := ms), Some(req))
  }

  /** What the user did to trigger a rerun. `Idle` is a rerun with no button
      pressed and nothing typed: the first page load, or a change of the model
      selector or a slider. */
  datatype Action =
    | Idle
    | ResetChat
    | StartExploring
    | QuickPrompt(index: nat)
    | PickTheme(theme: Theme)
    | ChatInput(input: Option<string>, outcome: Stream.Completion)

  /** One rerun of the script: the values the sidebar's model selector and
      max-tokens slider hold on that run, and the user action that triggered it. */
  datatype Event = Event(sidebar: Settings, action: Action)

  /** Events the page can produce: the slider stays within the selected
      model's range, and quick-start buttons exist only for the listed prompts. */
  predicate ValidEvent(e: Event) {
    && ValidSettings(e.sidebar)
    && (e.action.QuickPrompt? ==> e.action.index < |Config.QuickPrompts|)
  }

  /** The state after one rerun, for the persona text `persona`. Every rerun
      passes the sidebar's model selector, which records the selected model,
      before any button or chat handler runs. The chat box exists only once the
      welcome card is gone, so a chat event while it shows changes nothing
      further. */
  function Step(persona: string, s: State, e: Event): (r: State)
    requires ValidEvent(e)
    ensures WellFormed(s, persona) ==> WellFormed(r, persona)
    ensures r.selectedModel == Some(e.sidebar.model)
    ensures e.action.Idle? ==> r == ChooseModel(s, e.sidebar.model)
    ensures e.action.ChatInput? && (s.showWelcome || !Truthy(e.action.input)) ==> r == ChooseModel(s, e.sidebar.model)
  {
    var t := ChooseModel(s, e.sidebar.model);
    match e.action
    case Idle => t
    case ResetChat => ClearChatHistory(t, persona)
    case StartExploring => DismissWelcome(t)
    case QuickPrompt(i) => UseQuickPrompt(t, Config.QuickPrompts[i]).0
    case PickTheme(theme) => ChooseTheme(t, theme)
    case ChatInput(input, c) =>
      if t.showWelcome then t
      else Submit(t, input, e.sidebar, c).state
  }

  /** The state after a sequence of events, applied in order. */
  function Run(persona: string, s: State, es: seq<Event>): (r: State)
    requires forall k :: 0 <= k < |es| ==> ValidEvent(es[k])
    decreases |es|
  {
    if |es| == 0 then s else Run(persona, Step(persona, s, es[0]), es[1..])
  }

  /** Every event sequence keeps the session invariant. */
  lemma {:induction false} RunKeepsWellFormed(persona: string, s: State, es: seq<Event>)
    requires forall k :: 0 <= k < |es| ==> ValidEvent(es[k])
    requires WellFormed(s, persona)
    ensures WellFormed(Run(persona, s, es), persona)
    decreases |es|
  {
    if |es| > 0 {
      RunKeepsWellFormed(persona, Step(persona, s, es[0]), es[1..]);
    }
  }

  /** In every state reachable from a fresh session, the persona instruction is
      the first turn, the displayed history holds no system turn, and the
      counter equals the number of user turns. */
  lemma {:induction false} ReachableStates(persona: string, es: seq<Event>)
    requires forall k :: 0 <= k < |es| ==> ValidEvent(es[k])
    ensures WellFormed(Run(persona, Initial(persona), es), persona)
    ensures Run(persona, Initial(persona), es).messages[0] == Turn(System, persona)
    ensures forall t :: t in Visible(Run(persona, Initial(persona), es)) ==> t.role != System
    ensures Run(persona, Initial(persona), es).chatCounter == UserTurns(Run(persona, Initial(persona), es).messages)
  {
    RunKeepsWellFormed(persona, Initial(persona), es);
    VisibleOmitsPersona(Run(persona, Initial(persona), es), persona);
  }

  /** After any non-empty sequence of reruns the session records the model
      the selector showed on the last one: the selection is never lost, and
      after the first rerun it is never absent. */
  lemma {:induction false} RunRecordsSelection(persona: string, s: State, es: seq<Event>)
    requires forall k :: 0 <= k < |es| ==> ValidEvent(es[k])
    ensures |es| > 0 ==> Run(persona, s, es).selectedModel == Some(es[|es| - 1].sidebar.model)
    ensures |es| == 0 ==> Run(persona, s, es).selectedModel == s.selectedModel
    decreases |es|
  {
    if |es| > 0 {
      var s1 := Step(persona, s, es[0]);
      RunRecordsSelection(persona, s1, es[1..]);
      if |es| > 1 {
        assert es[1..][|es[1..]| - 1] == es[|es| - 1];
      }
    }
  }

  /** The script's own session, started with the Sergeant Carney persona text,
      keeps that text as its first and only system turn, and its counter equal
      to the number of user turns, whatever the user does. */
  lemma {:induction false} CarneyReachable(es: seq<Event>)
    requires forall k :: 0 <= k < |es| ==> ValidEvent(es[k])
    ensures WellFormed(Run(Config.SystemPrompt, CarneyInitial(), es), Config.SystemPrompt)
  {
    ReachableStates(Config.SystemPrompt, es);
  }

  /** One truthy submission, once the welcome card is gone, appends the user
      turn and its reply and counts one more user message. */
  lemma SubmitStep(persona: string, s: State, e: Event)
    requires !s.showWelcome
    requires ValidEvent(e) && e.action.ChatInput? && e.action.input.Some? && e.action.input.value != ""
    ensures Step(persona, s, e).messages == s.messages + [Turn(User, e.action.input.value), Turn(Assistant, Stream.Reply(e.action.outcome))]
    ensures !Step(persona, s, e).showWelcome
    ensures Step(persona, s, e).chatCounter == s.chatCounter + 1
  {
  }

  /** `after` is `before` followed, for each event of `es` in order, by the
      event's literal input as a user turn and its reply as an assistant turn. */
  predicate AppendsPairs(before: seq<Turn>, after: seq<Turn>, es: seq<Event>)
    requires forall k :: 0 <= k < |es| ==> es[k].action.ChatInput? && es[k].action.input.Some?
  {
    && |after| == |before| + 2 * |es|
    && after[..|before|] == before
    && forall k :: 0 <= k < |es| ==>
         && after[|before| + 2 * k] == Turn(User, es[k].action.input.value)
         && after[|before| + 2 * k + 1] == Turn(Assistant, Stream.Reply(es[k].action.outcome))
  }

  /** N truthy submissions after the welcome card is gone append exactly 2N
      turns: for the k-th, the literal input as a user turn followed by its
      reply as an assistant turn, in submission order. */
  lemma {:induction false} SubmissionsAppendPairs(persona: string, s: State, es: seq<Event>)
    requires !s.showWelcome
    requires forall k :: 0 <= k < |es| ==> ValidEvent(es[k]) && es[k].action.ChatInput? && es[k].action.input.Some? && es[k].action.input.value != ""
    ensures AppendsPairs(s.messages, Run(persona, s, es).messages, es)
    ensures Run(persona, s, es).chatCounter == s.chatCounter + |es|
    decreases |es|
  {
    if |es| > 0 {
      var e := es[0];
      var s1 := Step(persona, s, e);
      SubmitStep(persona, s, e);
      SubmissionsAppendPairs(persona, s1, es[1..]);
      var ms := Run(persona, s, es).messages;
      assert ms == Run(persona, s1, es[1..]).messages;
      PairsShift(s.messages, s1.messages, ms, es);
    }
  }

  /** Prepending one pair to the appended pairs. */
  lemma PairsShift(before: seq<Turn>, mid: seq<Turn>, after: seq<Turn>, es: seq<Event>)
    requires |es| > 0
    requires forall k :: 0 <= k < |es| ==> es[k].action.ChatInput? && es[k].action.input.Some?
    requires mid == before + [Turn(User, es[0].action.input.value), Turn(Assistant, Stream.Reply(es[0].action.outcome))]
    requires AppendsPairs(mid, after, es[1..])
    ensures AppendsPairs(before, after, es)
  {
    assert after[..|mid|] == mid;
    assert after[..|before|] == mid[..|before|];
    forall k | 0 <= k < |es|
      ensures after[|before| + 2 * k] == Turn(User, es[k].action.input.value)
      ensures after[|before| + 2 * k + 1] == Turn(Assistant, Stream.Reply(es[k].action.outcome))
    {
      if k > 0 {
        assert es[k] == es[1..][k - 1];
        assert |before| + 2 * k == |mid| + 2 * (k - 1);
      } else {
        assert after[|before|] == mid[|before|];
        assert after[|before| + 1] == mid[|before| + 1];
      }
    }
  }

  /** From a fresh session, dismissing the welcome card and then making N
      truthy submissions leaves 1 + 2N turns, of which the first is the persona
      instruction. */
  lemma FreshConversationLength(persona: string, es: seq<Event>)
    requires forall k :: 0 <= k < |es| ==> ValidEvent(es[k]) && es[k].action.ChatInput? && es[k].action.input.Some? && es[k].action.input.value != ""
    ensures |Run(persona, DismissWelcome(Initial(persona)), es).messages| == 1 + 2 * |es|
    ensures Run(persona, DismissWelcome(Initial(persona)), es).messages[0] == Turn(System, persona)
  {
    SubmissionsAppendPairs(persona, DismissWelcome(Initial(persona)), es);
    var ms := Run(persona, DismissWelcome(Initial(persona)), es).messages;
    assert ms[..1] == [Turn(System, persona)];
  }

  /** Whitespace is truthy: a blank but non-empty submission is not rejected
      and appends a user turn and a reply like any other. */
  lemma BlankInputIsSubmitted(s: State, cfg: Settings, c: Stream.Completion)
    requires !s.showWelcome
    ensures |Submit(s, Some(" "), cfg, c).state.messages| == |s.messages| + 2
  {
  }

  /** When the request fails, however much had streamed, the stored reply is
      the apology and the user turn before it is the literal input. */
  lemma FailedSubmission(s: State, input: string, cfg: Settings, received: seq<Stream.Chunk>)
    requires !s.showWelcome
    requires input != ""
    ensures var ms := Submit(s, Some(input), cfg, Stream.Failed(received)).state.messages;
      && |ms| == |s.messages| + 2
      && ms[|ms| - 2] == Turn(User, input)
      && ms[|ms| - 1] == Turn(Assistant, Config.Apology)
  {
  }

  /** Turns do not strictly alternate: a quick-start prompt is stored without a
      reply, so a chat submission right after it yields two user turns in a row,
      and both are counted. */
  lemma QuickPromptThenChat(persona: string, input: string, cfg: Settings, c: Stream.Completion)
    requires input != "" && ValidSettings(cfg)
    ensures var r := Run(persona, Initial(persona), [Event(cfg, QuickPrompt(0)), Event(cfg, ChatInput(Some(input), c))]);
      && r.messages == [Turn(System, persona), Turn(User, Config.QuickPrompts[0]), Turn(User, input), Turn(Assistant, Stream.Reply(c))]
      && r.chatCounter == 2
      && r.selectedModel == Some(cfg.model)
  {
    var es := [Event(cfg, QuickPrompt(0)), Event(cfg, ChatInput(Some(input), c))];
    var s1 := Step(persona, Initial(persona), es[0]);
    assert es[1..] == [Event(cfg, ChatInput(Some(input), c))];
    assert es[1..][1..] == [];
    var s2 := Step(persona, s1, es[1]);
    assert Run(persona, s1, es[1..]) == Run(persona, s2, []);
    assert Run(persona, Initial(persona), es) == Run(persona, s1, es[1..]);
    assert s1.messages == [Turn(System, persona), Turn(User, Config.QuickPrompts[0])];
  }
}
