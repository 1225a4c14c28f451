# Sergeant Carney chat: session state and streamed replies

A Dafny model of the logic inside `streamlit_app.py`, a Streamlit page on which a
visitor chats with a large language model that role-plays Sergeant William
Harvey Carney of the 54th Massachusetts. Almost all of the script is page layout.
Two pieces carry real logic, and this model covers them:

- **The session record and its transitions.** The record holds the transcript
  (`messages`), the selected model, `chat_counter`, the `show_welcome` flag and
  the theme. It has a fresh-session initialisation, "Reset Chat"
  (`clear_chat_history`), "Start Exploring" (`dismiss_welcome`), the
  quick-start buttons (`use_quick_prompt`), the theme radio, the model selector,
  and the chat box.
- **Streamed reply assembly.** `generate_chat_responses` keeps the truthy
  `delta.content` values of the streamed chunks. The submit handler joins them
  into `full_response` and republishes the growing text in a placeholder. If the
  request raises, the whole reply is replaced with a fixed apology.

Modules, one per concern of the script:

- `Wrappers` (`wrappers.dfy`): `Option`, plus `Truthy`, which is Python
  truthiness of an optional string.
- `Config` (`config.dfy`): the persona text, the loading messages, the apology,
  the quick prompts, the model catalog and the max-tokens slider bounds.
- `Stream` (`stream.dfy`): the chunk filter, the joining of fragments, the
  accumulation loop, the partial texts shown, and the apology on failure.
- `Session` (`session.dfy`): the record, the session invariant `WellFormed`, and
  the transitions triggered by the sidebar and the welcome card.
- `Chat` (`chat.dfy`): a submission and the request it issues, user events,
  whole runs, and the properties of reachable states.

The completion service is abstract. A `Completion` is either `Completed(chunks)`,
meaning the stream ended normally, or `Failed(received)`, meaning an exception
came after the chunks in `received` had been processed. The random choice of a
loading message is an index passed in by the caller. The persona text is a
parameter of the session functions (`persona`). The script's own value is
`Config.SystemPrompt`, and `Chat.CarneyReachable` applies the session
properties to the session that starts from it.

Each rerun of the script is one `Chat.Event`. An event holds the values that the
sidebar's model selector and max-tokens slider show on that run, plus the action
that triggered the run. The selector's assignment (lines 161-163) sits above
every button handler and the chat box, so every rerun records the selected model
first.

Two behaviours of the script are easy to misread:

- **Blank input is submitted.** The chat box guard is `if user_input:`, which is
  Python truthiness. Only an absent or empty string is ignored. A whitespace-only
  message is appended and answered like any other (`Chat.BlankInputIsSubmitted`).
- **Turns do not strictly alternate.** A quick-start button appends a user turn
  and requests no reply. The next chat submission therefore sends two user turns
  in a row (`Chat.QuickPromptThenChat`). The counter still equals the number of
  user turns in every reachable state.

## Model

| member | source | states |
|---|---|---|
| Config.DefaultMaxTokens | streamlit_app.py:169 | The slider default `min(2048, tokens)` never exceeds `tokens` or 2048 and is one of the two, so it is their minimum; whenever `512 <= tokens` it lies in `[512, tokens]` |
| Config.CatalogSliderDefaults | streamlit_app.py:104-110 | For every catalog model the slider range `[512, tokens]` is non-empty, and the default lies in it on the 512-step grid |
| Config.CatalogListsEachModelOnce | streamlit_app.py:161 | The selector lists every catalog model exactly once and starts (index 0) on llama-3.3-70b-versatile |
| Config.FromWireId | streamlit_app.py:166 | Looking up a key yields, when it yields anything, a model whose identifier is that key |
| Config.WireIdRoundTrip | streamlit_app.py:104-110 | Catalog keys are distinct: looking up a model's key gives back that model, and a key is found exactly when some catalog model has it |
| Stream.Deltas | streamlit_app.py:205-209 | The generator yields no more fragments than chunks, and never an empty one |
| Stream.DeltasExact | streamlit_app.py:205-209 | The generator yields exactly the truthy delta contents. There are as many fragments as truthy chunks, and the truthy chunk at position i is the fragment ranked by the number of truthy chunks before it. Nothing is dropped, reordered or added |
| Stream.DeltasAppend | streamlit_app.py:207-209 | Filtering two consecutive stretches of the stream gives the two filtered results, joined |
| Stream.ConcatAppend | streamlit_app.py:230-231 | Accumulating two lists of fragments gives the two accumulated strings, concatenated |
| Stream.Accumulate | streamlit_app.py:219-236 | The chunk-by-chunk loop ends with the concatenation of the filtered fragments when the stream completes, and with the apology when it fails |
| Stream.FragmentsJoinExactly | streamlit_app.py:230-233 | A stream of non-empty fragments f1..fk is stored as exactly f1 + ... + fk |
| Stream.EmptyStreamEmptyReply | streamlit_app.py:219-233 | A completed stream with no truthy content stores the empty string; this is not an error |
| Stream.FailureDiscardsPartial | streamlit_app.py:234-236 | After a failure the stored reply is the apology, whatever had been received |
| Stream.Frames | streamlit_app.py:230-232 | The placeholder republishes the accumulator once per fragment |
| Stream.FramesGrow | streamlit_app.py:230-233 | Each republished partial text strictly extends the previous one and is a prefix of the final reply; the last one is the final reply |
| Stream.Display | streamlit_app.py:218-221 | The placeholder first shows one of the fixed loading messages |
| Stream.DisplayEndsWithReply | streamlit_app.py:230-233 | After a normal end of stream, the placeholder's last text is the content stored for the assistant turn. When a fragment arrived, that text repeats the last partial text; when none did, the loading message is followed only by the empty reply |
| Session.Visible | streamlit_app.py:199 | The displayed history has one turn fewer than the transcript and its k-th turn is transcript turn k+1 |
| Session.VisibleOmitsPersona | streamlit_app.py:199 | In a well-formed state the displayed history holds no system turn, and persona turn + history is the transcript |
| Session.Initial | streamlit_app.py:67-76 | A fresh session has only the persona turn, counter 0, the welcome card showing, the light theme and no model, and it is well-formed |
| Session.ClearChatHistory | streamlit_app.py:86-90 | Reset leaves exactly the persona turn, counter 0 and the welcome card showing. Theme and selected model are unchanged, and the result is well-formed |
| Session.ClearChatHistoryForgets | streamlit_app.py:86-90 | Reset is idempotent and forgets all history: states that agree on theme and model reset to the same state |
| Session.DismissWelcome | streamlit_app.py:92-94 | Hides the welcome card, changes nothing else, and keeps the invariant |
| Session.UseQuickPrompt | streamlit_app.py:96-101 | Hides the welcome card and appends exactly one user turn with the prompt. It increments the counter by one, returns the prompt, changes nothing else, and keeps the invariant |
| Session.ChooseTheme | streamlit_app.py:154-158 | The session takes the chosen theme, nothing else changes, and choosing the current theme is a no-op |
| Session.ChooseModel | streamlit_app.py:161-163 | The session records the chosen model and nothing else changes |
| Chat.Submit | streamlit_app.py:211-237 | Absent or empty input changes nothing and issues no request. Otherwise one streamed request goes out, for the selected model and token limit, carrying the whole transcript plus the literal input as a user turn. The new transcript is that plus the assistant reply, the counter rises by one, nothing else changes, and the invariant is kept |
| Chat.Step | streamlit_app.py:161-237 | Every rerun keeps the session invariant and leaves the session holding the model the selector shows. A rerun without an action, a chat event while the welcome card shows, and a non-truthy chat event only record that model |
| Chat.RunKeepsWellFormed | streamlit_app.py:86-101 | Any sequence of user actions keeps the persona turn first and alone, and the counter equal to the number of user turns |
| Chat.RunRecordsSelection | streamlit_app.py:161-163 | After any non-empty sequence of reruns the selected model is the one the selector showed on the last rerun, so it is never absent after the first run; with no rerun it is unchanged |
| Chat.ReachableStates | streamlit_app.py:199 | In every state reachable from a fresh session, the first turn is the persona instruction, the displayed history holds no system turn, and the counter equals the number of user turns |
| Chat.CarneyReachable | streamlit_app.py:67-68 | The script's own session, started with the Sergeant Carney persona text, satisfies the session invariant after any sequence of reruns |
| Chat.SubmitStep | streamlit_app.py:211-214 | One truthy submission after the welcome card appends user then assistant turn and counts one |
| Chat.SubmissionsAppendPairs | streamlit_app.py:211-237 | N truthy submissions append exactly 2N turns. For the k-th submission they are its literal input as a user turn, then its reply as an assistant turn, in submission order. The earlier transcript is untouched and the counter rises by N |
| Chat.FreshConversationLength | streamlit_app.py:67-68 | From a fresh session, after the welcome card, N submissions leave 1 + 2N turns, with the persona first |
| Chat.BlankInputIsSubmitted | streamlit_app.py:212 | A whitespace-only message is not rejected and appends two turns |
| Chat.FailedSubmission | streamlit_app.py:234-237 | On a failed request, however much streamed, the last two turns are the literal input and the apology |
| Chat.QuickPromptThenChat | streamlit_app.py:96-101 | A quick prompt followed by a chat message yields two consecutive user turns, both counted, with the sidebar's model recorded |

## Left out

- Page rendering is left out: `load_css`, `icon`, the welcome card HTML, the
  sidebar text and links, the footer and `st.rerun`. Each rerun is one event
  applied to the record. A theme change reruns at once (line 158), before the
  selector runs; the run that follows passes the selector and does nothing else.
  The model folds the two runs into one `PickTheme` event, which sets both the
  theme and the model.
- The `▌` cursor appended to partial texts is presentation only and never
  stored, so `Stream.Frames` omits it.
- Groq client construction, the secrets lookup and the `st.stop` on a missing
  key are left out, because they are foreign I/O that happens before any turn.
  The `chat.completions.create` call is the abstract `Completion`.
- The error text shown by `st.error` is not modelled; only the stored apology is.
- `random.choice` is an injected index into the loading messages.
- The temperature slider is left out because it is a float, so a `Request` has
  no temperature.
- Initialisation is modelled as one fresh state. The script initialises each key
  only if it is missing, which gives the same state for a new session.
- The selected model is stored as a catalog constructor rather than its key
  string. `Config.WireId` is the key, and `Config.WireIdRoundTrip` shows the two
  correspond one to one.
- Proof helpers have no row: `Session.UserTurns`, `Stream.CountTruthy`,
  `Stream.DeltasSingle`, `Stream.ConcatSingle`, `Session.UserTurnsAppend`,
  `Session.UserTurnsSnoc`, `Session.SystemTurn` and `Chat.PairsShift`.
  `Session.CarneyInitial` is the fresh state for `Config.SystemPrompt`.
- Streamlit's own slider rules beyond `[512, tokens]` with step 512 (for
  example, how a value off the step grid is snapped) belong to the widget
  library and are not modelled.
