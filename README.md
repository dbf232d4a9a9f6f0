# Chat client message-exchange state machine, in Dafny

This project models the chat front end's `App` component (`Frontend/src/App.jsx`). The
user types a question, `handleSubmit` trims it and rejects it if it is blank or a
request is already loading. An accepted question is appended to the transcript with a
loading assistant placeholder after it. A single `fetch` is then awaited. On success,
the placeholder becomes the answer. On an HTTP or network failure, it becomes a fixed
warning text. `handleStop` aborts the request and marks the placeholder `(stopped)`.
`handleFileChange` appends the chosen file names, in brackets, to the input box.

Files and modules:

- `js_text.dfy`, module `JsText`: `String.prototype.trim`. The whitespace set is
  ECMAScript's WhiteSpace and LineTerminator characters. `Lead` and `Trail` find the two
  ends to keep. `Trim` has a complete characterisation: `TrimUnpad` and the `exists`
  clause in its contract together determine it.
- `gate.dfy`, module `Gate`: the submit guard (`Accept`) and the Send button's enabled
  state (`SendEnabled`).
- `attachments.dfy`, module `Attachments`: `names.join(', ')` (`Join`), the bracketed
  insertion into the input (`Attach`) and an inverse, `Split`, used to state round
  trips.
- `transcript.dfy`, module `Transcript`: the `Msg` record, the constants `StoppedText`
  and `FallbackText`, and the three transcript rewrites (`Exchange`, `ReplaceLast`,
  `Stopped`). It also holds the shape predicates the state invariant is built from:
  `Settled` (no entry loading), `Awaiting` (only the last entry is loading, and it is an
  assistant entry) and `Paired` (entries alternate user, assistant). The lemmas show
  that each rewrite moves between these shapes.
- `chat.dfy`, module `Chat`: the `ChatSession` class holds the component's state:
  `input`, `messages`, `loading`, and `abortRef` (an `AbortController?`). Its methods are
  the event handlers. `Valid()` is the invariant. Three phases, all `Paired`:
  - `Idle`: no handle, not loading, no entry loading.
  - `InFlight`: a live handle, loading, and exactly the last entry, an assistant one, loading.
  - `Stopping`: an aborted handle whose request handler has not finished yet, not
    loading, no entry loading.

  Every method keeps `Valid()`. `Classify` maps a network outcome to the branch of
  `handleSubmit`'s try/catch it takes.
- `scenarios.dfy`, module `Scenarios`: whole conversations played against the method
  contracts only, with postconditions on the resulting transcript.
- `wrappers.dfy`, module `Wrappers`: `Option`.

The awaited network call is an external event. After `Submit`, the caller chooses the
outcome and calls `Complete` with it, or one of `CompleteSuccess`, `CompleteFailure`
and `CompleteAbort` directly. A reply may also settle after `Stop`, in the `Stopping`
phase, as the code allows. `CompleteGuarded` is the handler with the missing check of
the abort signal (see Findings). Clock readings (`Date.now()`) are parameters. A new entry's
id is the reading plus the source's fixed offset (+1 for the placeholder, +2 for an
answer, +3 for the fallback).

Three behaviours of the code that the model follows:

- Ids are `Date.now()` plus small offsets, and the model takes them as clock readings.
  The readings can repeat, so the model claims neither ids that increase strictly nor
  ids that are unique.
- A response body that parses as JSON is never a failure for the code's `catch`. Three
  things take the failure path: a rejected `fetch` (`NetworkError`), a non-ok status
  (Frontend/src/App.jsx:145), and an ok response whose body `res.json()` cannot parse
  (`Reply(status, None)`). The model's `Reply(status, Some(answer))` is the object with
  a string `answer` that the backend always sends (Backend/app.py:74). The other parsed
  bodies are left out.
- Stop does not clear the abort handle. The aborted request's `finally` clears it
  later. This is the `Stopping` phase.

## Model

| member | source | states |
|---|---|---|
| JsText.Lead | Frontend/src/App.jsx:123 | The index of the first non-whitespace character at or after i: everything before it is whitespace, and the character there is not. |
| JsText.Trail | Frontend/src/App.jsx:123 | The end of a range once its trailing whitespace is dropped: everything after it is whitespace, and the character before it (in range) is not. |
| JsText.Trim | Frontend/src/App.jsx:123 | `text.trim()` has no whitespace at either end. It is empty exactly when the text is all whitespace. The text is a whitespace prefix, then the result, then a whitespace suffix. |
| JsText.TrimUnpad | Frontend/src/App.jsx:123 | Padding a trimmed string with whitespace on both sides and trimming gives the string back. With Trim's own contract, this determines Trim uniquely. |
| JsText.TrimIdempotent | Frontend/src/App.jsx:123 | Trimming twice is trimming once. |
| Gate.Accept | Frontend/src/App.jsx:122-124 | The submit guard returns a question exactly when nothing is loading and the text is not all whitespace. The question is the trimmed text: non-empty, with no whitespace at either end. |
| Gate.AcceptTrimmed | Frontend/src/App.jsx:123-124 | A non-empty question already free of surrounding whitespace is accepted as is when nothing is loading. |
| Gate.AcceptUnpadded | Frontend/src/App.jsx:123-124 | Adding whitespace around an accepted question does not change what the guard returns. |
| Gate.SendEnabled | Frontend/src/App.jsx:261-263 | The Send button is enabled and styled active exactly when the input trims to a non-empty string, that is, when it is not all whitespace. |
| Gate.SendEnabledIffAccepted | Frontend/src/App.jsx:261-263 | The Send button is enabled exactly when a submit of the current input would be accepted, given that the button is only shown while nothing is loading. |
| Attachments.Join | Frontend/src/App.jsx:192 | `names.join(', ')` is empty for no names. Otherwise it starts with the first name, and its length is the names' total length plus two per separator. |
| Attachments.Split | Frontend/src/App.jsx:192 | Cuts a string at every `", "`, left to right, for stating the round trips. There is always at least one piece, and no piece contains a separator. |
| Attachments.JoinSplit | Frontend/src/App.jsx:192 | Joining the pieces of any string gives back that string, so `Split` loses nothing. With SplitJoin, `Split` is the inverse of the join on names without `", "`. |
| Attachments.SplitJoin | Frontend/src/App.jsx:192 | Splitting the joined names gives back exactly the names, in order, when there is at least one and none contains `", "`. |
| Attachments.Attach | Frontend/src/App.jsx:191-193 | With no files, the input is unchanged. Otherwise the old input is kept as a prefix, followed by one space if it was non-empty, and the result ends with `]`. |
| Attachments.AttachShape | Frontend/src/App.jsx:191-193 | For any non-empty list of names, separators inside names included: the result is the old input, a space if that was non-empty, `[`, the joined names and `]`. This fixes Attach's result completely. |
| Attachments.AttachRoundTrip | Frontend/src/App.jsx:191-193 | After attaching, the result starts with the old input, followed by a space if that was non-empty, and then `[`. The text between that bracket and the final `]` is exactly the joined names. For names without `", "`, splitting that text gives back the chosen names. |
| Transcript.Exchange | Frontend/src/App.jsx:127-131 | The pair a submit appends: first a user entry holding the question, not loading, then an assistant entry with empty content, loading. |
| Transcript.ReplaceLast | Frontend/src/App.jsx:149-151 | Overwriting the last entry of a copy changes only the last entry and keeps the length. An empty transcript stays empty. |
| Transcript.Stopped | Frontend/src/App.jsx:173-179 | The length is kept, every earlier entry is kept, and every role and id is kept. A loading last entry becomes a non-loading `(stopped)` entry. In every other case, the empty transcript included, the transcript is unchanged. |
| Transcript.ExchangeAwaits | Frontend/src/App.jsx:124-132 | Appending the exchange to a settled, paired transcript keeps every earlier entry. The result is awaiting (only the new last entry loading, an assistant one) and still paired. |
| Transcript.ResolveSettles | Frontend/src/App.jsx:148-163 | Replacing the last entry of an awaiting or settled transcript with a non-loading assistant entry leaves no entry loading and keeps the transcript paired. |
| Transcript.StoppedSettles | Frontend/src/App.jsx:172-179 | Stopping an awaiting or settled transcript leaves no entry loading and keeps it paired. |
| Transcript.StoppedIdempotent | Frontend/src/App.jsx:170-180 | A second stop changes nothing. |
| Chat.Classify | Frontend/src/App.jsx:138-154 | A response is answered exactly when its status is in 200-299 and its body parses, and the answer is the body's. An abort error is abandoned. Everything else is a failure. |
| Chat.AbortController.constructor | Frontend/src/App.jsx:135 | A new controller is not aborted. |
| Chat.AbortController.Abort | Frontend/src/App.jsx:171 | After `abort()` the signal is aborted. |
| Chat.ChatSession.constructor | Frontend/src/App.jsx:99-104 | The initial state: empty input, empty transcript, not loading, no abort handle. |
| Chat.ChatSession.SetInput | Frontend/src/App.jsx:230 | Typing replaces the input and changes nothing else. |
| Chat.ChatSession.Submit | Frontend/src/App.jsx:122-136 | A rejected text leaves input, messages, loading and the handle unchanged. An accepted one clears the input and appends the question and a loading placeholder after the unchanged earlier entries. It sets loading and stores a fresh, unaborted controller. The invariant is kept. |
| Chat.ChatSession.CompleteSuccess | Frontend/src/App.jsx:146-167 | Only the last entry is replaced, by a non-loading assistant entry holding the answer. This holds whether or not Stop has aborted the request. The input is kept, loading and the handle are cleared, and no entry is loading. |
| Chat.ChatSession.CompleteFailure | Frontend/src/App.jsx:153-167 | Only the last entry is replaced, by a non-loading assistant entry with the fixed fallback text. This holds whether or not Stop has aborted the request. The input is kept, loading and the handle are cleared. |
| Chat.ChatSession.CompleteAbort | Frontend/src/App.jsx:153-167 | The early return in the catch leaves the transcript and input unchanged. The finally clears loading and the handle. |
| Chat.ChatSession.Complete | Frontend/src/App.jsx:138-167 | For each classified outcome: the answer, the fallback text, or no change to the transcript. This includes a reply that settles after Stop. On every outcome, loading and the handle end cleared and the invariant holds. |
| Chat.ChatSession.CompleteGuarded | Frontend/src/App.jsx:138-167 | The handler with a check of `controller.signal.aborted` before writing. A request that Stop aborted leaves the transcript unchanged, whatever its outcome. Otherwise the transcript is written as in `Complete`. Loading and the handle end cleared. |
| Chat.ChatSession.Stop | Frontend/src/App.jsx:170-180 | The stored controller, if any, is aborted and kept. Loading becomes false, the input is kept, and the transcript becomes `Stopped` of the old one. When nothing was loading, the transcript is unchanged. |
| Chat.ChatSession.AttachFiles | Frontend/src/App.jsx:189-193 | The input becomes `Attach` of the old input and the file names. Messages, loading and the handle are unchanged. |
| Scenarios.AnsweredExchange | Frontend/src/App.jsx:122-152 | Submitting a question and receiving an answer leaves exactly the settled pair (question, answer), and nothing is loading. |
| Scenarios.StoppedExchange | Frontend/src/App.jsx:170-180 | Submitting, then stopping, then the aborted request finishing leaves the question and a `(stopped)` entry with the placeholder's id. The late abort changes nothing. |
| Scenarios.LateAnswerAfterStop | Frontend/src/App.jsx:146-152 | Submit, then Stop after the body was read, then `res.json()` resolving: the answer, with id reading+2, replaces the `(stopped)` entry that Stop wrote. |
| Scenarios.LateAnswerDiscarded | Frontend/src/App.jsx:146-152 | The same events with the guarded handler leave the question and `(stopped)`, not loading. |
| Scenarios.ServerErrorExchange | Frontend/src/App.jsx:145-163 | A non-ok status leaves the question and the fallback text, and nothing is loading. |
| Scenarios.BlankSubmissions | Frontend/src/App.jsx:123-124 | Submitting the empty text or any whitespace leaves the transcript empty, not loading, and the typed input untouched. |
| Scenarios.SecondSubmitRejected | Frontend/src/App.jsx:124 | A second submit while the first is loading is rejected. Exactly one entry, the first placeholder, is loading. |
| Scenarios.TrimmedQuestion | Frontend/src/App.jsx:123-131 | The user entry holds the question without its surrounding whitespace. |
| Scenarios.AttachThenSubmit | Frontend/src/App.jsx:189-193 | Attaching names to typed text and then submitting gives a question made of the typed text, a space and a bracketed list. That list splits back into the names. |

## Left out

- Rendering: the SVG icons, `TypingDots`, `Message` and the JSX layout (Frontend/src/App.jsx:7-96, 198-277) are presentation only.
- DOM effects: textarea auto-resize, scroll-into-view, focusing the textarea and resetting the file input (Frontend/src/App.jsx:109-120, 194-195) are DOM effects and do not touch the modelled state.
- The `fetch` call, `res.json()` and the request body: the outcome is an `Outcome` value the caller supplies.
- Parsed bodies other than an object with a string `answer` are not separate outcomes. The backend always answers `{"answer": <string>, ...}` (Backend/app.py:74), so these arise only from some other server. In the source:
  - An object without `answer` leaves the placeholder's content `undefined`.
  - An object whose `answer` is not a string, e.g. `{"answer": 5}`, makes the content that value.
  - The JSON body `null` makes `data.answer` throw a TypeError inside the `setMessages` update function (Frontend/src/App.jsx:148-151). React either calls the updater eagerly inside `setMessages` and swallows the TypeError, or calls it while rendering. Either way the `catch` at line 153 never sees the error, and rendering fails.

  The model's answer is always a string.
- Date.now(): clock readings are method parameters. The model does not claim that ids are unique or increasing. The source's timestamps plus offsets can coincide, for example an answer's reading plus 2 and a later submit's reading plus 1.
- Chat.ChatSession.Submit: requires `!Stopping()`. This is an assumption about event ordering: the aborted request's handler must finish before the next submit. While `fetch` (Frontend/src/App.jsx:138) is pending it holds, because `abort()` rejects the fetch and the `catch`/`finally` run in microtasks before any later user event. After `fetch` has resolved and before `res.json()` (line 146) settles, it can fail. Stop during the body read makes the read reject with `AbortError` in a later task. A user event can reach `handleSubmit` first, with `loading` already false, and start a second request. The first request's late `finally` then clears `loading` and the handle while the second request's placeholder is still loading. The model does not cover this interleaving.
- Chat.ChatSession.Complete: requires only that an abort error comes after `Stop` aborted the controller, since only `handleStop` calls `abort()`. The other direction is not assumed. If Stop runs after `fetch` resolved and the body was fully read, `abort()` errors nothing and `res.json()` resolves. The handler never checks `controller.signal.aborted`, so the answer replaces `(stopped)` (see Findings).
- React scheduling and stale closures: `loading` is read as the current state. State updates are applied at once, in the order the handler issues them.
- `handleKeyDown` (Frontend/src/App.jsx:182-187) and the Send button's `onClick={() => handleSubmit()}` (Frontend/src/App.jsx:262) only call `handleSubmit()` with the current input. `Submit(input, …)` covers both.
- Strings are sequences of Unicode code points, while JavaScript's are UTF-16 code units. Every character `trim` removes lies in the Basic Multilingual Plane, so trimming and joining agree.
- Attachments.SplitJoin and Attachments.AttachRoundTrip hold only for file names without `", "`. A name that contains one cannot be read back from the joined text. This limits the inverse, not the join: Attachments.AttachShape gives the bracket shape for all names.
- Backend/app.py (FastAPI routing, HTTPX calls, process start-up, polling with a wall clock) is not part of this model.

## Findings

| source | as written | input that shows it | evidently intended | confidence | as-written member | corrected member |
|---|---|---|---|---|---|---|
| Frontend/src/App.jsx:146-152 | After the await on `res.json()`, the handler writes `data.answer` over the last entry without checking `controller.signal.aborted`. | Submit a question. The response arrives and its body is fully read. Stop is pressed before the task resolving `res.json()` runs. The entry shows `(stopped)`, then the answer replaces it. | A stopped request leaves `(stopped)` in place: its result is discarded. | not executed | Scenarios.LateAnswerAfterStop | Scenarios.LateAnswerDiscarded |
