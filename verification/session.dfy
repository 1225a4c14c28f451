/** The per-browser-session record of the chat script and the transitions the
    sidebar and the welcome card apply to it. */
module Session {
  import opened Wrappers
  import Config

  datatype Role = System | User | Assistant

  /** One message of the transcript. */
  datatype Turn = Turn(role: Role, content: string)

  datatype Theme = Light | Dark

  /** The session-scoped values: the transcript sent to the model, the model
      picked in the sidebar (none before the sidebar first runs), the count of
      user messages, whether the welcome card is showing, and the colour theme. */
  datatype State = State(
    messages: seq<Turn>,
    selectedModel: Option<Config.ModelId>,
    chatCounter: nat,
    showWelcome: bool,
    theme: Theme)

  /** The persona instruction as the transcript's first turn. The script's
      persona text is `Config.SystemPrompt`; the transitions take it as a
      parameter because nothing proved here depends on its wording. */
  function SystemTurn(persona: string): (t: Turn)
    ensures t.role == System && t.content == persona
  {
    Turn(System, persona)
  }

  /** Number of user turns in `ms`. */
  function UserTurns(ms: seq<Turn>): (n: nat)
    ensures n <= |ms|
  {
    if |ms| == 0 then 0
    else (if ms[0].role == User then 1 else 0) + UserTurns(ms[1..])
  }

  /** Counting user turns distributes over appending transcripts. */
  lemma {:induction false} UserTurnsAppend(a: seq<Turn>, b: seq<Turn>)
    ensures UserTurns(a + b) == UserTurns(a) + UserTurns(b)
  {
    if |a| == 0 {
      assert a + b == b;
    } else {
      assert (a + b)[1..] == a[1..] + b;
      UserTurnsAppend(a[1..], b);
    }
  }

  /** Appending one turn counts it exactly when it is a user turn. */
  lemma UserTurnsSnoc(ms: seq<Turn>, t: Turn)
    ensures UserTurns(ms + [t]) == UserTurns(ms) + (if t.role == User then 1 else 0)
  {
    UserTurnsAppend(ms, [t]);
    assert [t][1..] == [];
  }

  /** The invariant every reachable state keeps: the persona instruction is the
      first turn and the only system turn, and the counter equals the number of
      user turns. */
  predicate WellFormed(s: State, persona: string) {
    && |s.messages| >= 1
    && s.messages[0] == SystemTurn(persona)
    && (forall i :: 1 <= i < |s.messages| ==> s.messages[i].role != System)
    && s.chatCounter == UserTurns(s.messages)
  }

  /** The history the chat pane shows, `messages[1:]`: everything after the
      persona instruction (Python's slice of an empty list is empty). */
  function Visible(s: State): (v: seq<Turn>)
    ensures |v| == if |s.messages| == 0 then 0 else |s.messages| - 1
    ensures forall k :: 0 <= k < |v| ==> v[k] == s.messages[k + 1]
  {
    if |s.messages| == 0 then [] else s.messages[1..]
  }

  /** In a well-formed state the displayed history holds no system turn, and
      the persona instruction followed by it is the whole transcript. */
  lemma VisibleOmitsPersona(s: State, persona: string)
    requires WellFormed(s, persona)
    ensures forall t :: t in Visible(s) ==> t.role != System
    ensures [SystemTurn(persona)] + Visible(s) == s.messages
  {
  }

  /** The state a fresh browser session starts in. */
  function Initial(persona: string): (s: State)
    ensures WellFormed(s, persona)
    ensures Visible(s) == [] && s.chatCounter == 0
    ensures s.showWelcome && s.theme == Light && s.selectedModel == None
  {
    State([SystemTurn(persona)], None, 0, true, Light)
  }

  /** The script's own starting state, with the Sergeant Carney persona; it
      satisfies the session invariant for that persona, so every property
      proved for an arbitrary persona applies to it. */
  function CarneyInitial(): (s: State)
    ensures s == Initial(Config.SystemPrompt)
  {
    State([Turn(System, Config.SystemPrompt)], None, 0, true, Light)
  }

  /** "Reset Chat": the transcript goes back to the persona instruction alone,
      the counter to zero and the welcome card returns; theme and model stay. */
  function ClearChatHistory(s: State, persona: string): (r: State)
    ensures WellFormed(r, persona)
    ensures r.messages == [SystemTurn(persona)] && Visible(r) == []
    ensures r.chatCounter == 0 && r.showWelcome
    ensures r.theme == s.theme && r.selectedModel == s.selectedModel
    ensures r == Initial(persona).(theme := s.theme, selectedModel := s.selectedModel)
  {
    s.(messages := [SystemTurn(persona)], chatCounter := 0, showWelcome := true)
  }

  /** "Start Exploring": hides the welcome card and changes nothing else. */
  function DismissWelcome(s: State): (r: State)
    ensures !r.showWelcome
    ensures r.(showWelcome := s.showWelcome) == s
    ensures forall persona :: WellFormed(s, persona) ==> WellFormed(r, persona)
  {
    s.(showWelcome := false)
  }

  /** A quick-start button: hides the welcome card, appends the prompt as a
      user turn (no reply is requested), counts it, and returns the prompt. */
  function UseQuickPrompt(s: State, prompt: string): (r: (State, string))
    ensures r.1 == prompt
    ensures !r.0.showWelcome
    ensures |r.0.messages| == |s.messages| + 1
    ensures r.0.messages[..|s.messages|] == s.messages
    ensures r.0.messages[|s.messages|] == Turn(User, prompt)
    ensures r.0.chatCounter == s.chatCounter + 1
    ensures r.0.theme == s.theme && r.0.selectedModel == s.selectedModel
    ensures forall persona :: WellFormed(s, persona) ==> WellFormed(r.0, persona)
  {
    var ms := s.messages + [Turn(User, prompt)];
    UserTurnsSnoc(s.messages, Turn(User, prompt));
    assert ms[..|s.messages|] == s.messages;
    (s.(showWelcome := false, messages := ms, chatCounter := s.chatCounter + 1), prompt)
  }

  /** The theme radio: the session takes the chosen theme (rerunning only when
      it differs); nothing else changes. */
  function ChooseTheme(s: State, choice: Theme): (r: State)
    ensures r.theme == choice
    ensures r.(theme := s.theme) == s
    ensures choice == s.theme ==> r == s
    ensures forall persona :: WellFormed(s, persona) ==> WellFormed(r, persona)
  {
    if s.theme != choice then s.(theme := choice) else s
  }

  /** The model selector: the session records the chosen catalog model;
      nothing else changes. */
  function ChooseModel(s: State, m: Config.ModelId): (r: State)
    ensures r.selectedModel == Some(m)
    ensures r.(selectedModel := s.selectedModel) == s
    ensures forall persona :: WellFormed(s, persona) ==> WellFormed(r, persona)
  {
    if s.selectedModel != Some(m) then s.(selectedModel := Some(m)) else s
  }

  /** Resetting twice is resetting once, and resetting forgets the whole history:
      two states that agree on theme and model reset to the same state. */
  lemma ClearChatHistoryForgets(s: State, t: State, persona: string)
    requires s.theme == t.theme && s.selectedModel == t.selectedModel
    ensures ClearChatHistory(ClearChatHistory(s, persona), persona) == ClearChatHistory(s, persona)
    ensures ClearChatHistory(s, persona) == ClearChatHistory(t, persona)
  {
  }
}
