# Smart Study Hub: a verified model of its stateful core

Smart Study Hub is a single-page study app backed by three serverless
functions that forward to an AI gateway. This project models, in Dafny, the
four parts of it that have behaviour worth stating.

- **The Ask page** (`AskChat`, with the stream reassembler in `SseStream`).
  - Submitting a question appends a user message.
  - The chat reply then arrives as text chunks of `data: <json>` lines.
  - The read loop peels complete lines off a buffer and concatenates each
    `choices[0].delta.content` into the last assistant message.
  - `SseStream` gives that loop a pure meaning: `Pass` is one run of the inner
    line loop, `Feed` is one chunk and `Run` is a whole reply.
  - The method `AskChat.AskPage.Respond` keeps the source's nested
    `while` loops, and it is proved to compute `Run`.
- **The Tools page** (`Tools`): the keypad calculator's display and expression,
  and the reminder list.
- **The Learn page** (`Learn`): the note list, and the quiz state machine.
  - The quiz tracks the current question, the selected answer, the result flag
    and the score.
  - The timer armed by an answer becomes the explicit `Advance` step.
- **The `generate-quiz` function** (`QuizProxy`): the request-to-response
  decision.
  - The greedy `/\{[\s\S]*\}/` match is modelled as the regex engine's
    backtracking search.
  - That search is proved equal to "from the first `{` to the last `}`".

Shared helpers:

- `Text` holds the JavaScript string operations the code uses: `trim`,
  `startsWith`, `endsWith`, `indexOf` and a global one-character `replace`.
  It also holds `LastIndexOf`, which the code does not call. It defines the
  closed form `QuizProxy.GreedySpan` that the regex match is proved equal to.
- `Lists` holds the `filter`-by-id deletion that the reminder list and the
  note list share.
- `Options` holds the option type.

A React handler that can `await` is split at that point into two methods. The
part before the request and the part after the reply are separate transitions:
`Submit` then `Respond`, and `StartGenerate` then `FinishGenerate`.

Effects are parameters:

- the replies of `fetch`;
- `JSON.parse` (a `Parser` or `parse` function);
- `JSON.stringify`;
- the calculator's evaluator;
- the clock reading used for ids.

Where the specification of the system and the code disagree, the model follows
the code:

- **`[DONE]` does not end the stream.** The `break` at `src/pages/Ask.tsx:110`
  leaves only the inner line loop, and the read loop goes on. Lines in later
  chunks are still handled; lines after the sentinel in the same chunk are
  dropped from that pass. `SseStream.SentinelEndsOnlyThePass` shows both on one
  pair of lines.
- **The quiz reply is not scanned for the first top-level object.** The greedy
  match runs from the first `{` to the last `}`, with later objects included
  (`QuizProxy.SpanCoversLaterObjects`).
- **A malformed line is not waited on.** It is put back at the head of the buffer.
  The next pass stops on the same line again, so the answer stops growing for
  the rest of the reply (`SseStream.FailureFreezesContent`).
- **The `Error` display is left on any key, not only on a digit** (`src/pages/Tools.tsx:82-83`).
  Whether `1/0` is an error is up to the evaluator, since JavaScript yields
  `Infinity` there. The model takes the evaluator as a parameter.

## Model

| member | source | states |
|---|---|---|
| `Text.IndexOf` | src/pages/Ask.tsx:101 | The result is -1 exactly when the character is absent; otherwise the result is its first position. |
| `Text.LastIndexOf` | supabase/functions/generate-quiz/index.ts:46 | The result is -1 when the character is absent; otherwise it is the position of its last occurrence. |
| `Text.ReplaceAll` | src/pages/Tools.tsx:97 | The length is kept, each occurrence of the pattern becomes the replacement, and every other character is unchanged. |
| `Text.TrimStartFacts` | src/pages/Ask.tsx:106 | `trimStart` removes exactly a white-space prefix and stops at a character that is not white space. |
| `Text.TrimStart` | src/pages/Ask.tsx:106 | Definition; characterised by `Text.TrimStartFacts`. |
| `Text.TrimEnd` | src/pages/Ask.tsx:106 | Definition; characterised by `Text.TrimEndFacts`. |
| `Text.Trim` | src/pages/Ask.tsx:106-107 | Definition; characterised by `Text.TrimFacts` and `Text.TrimEmptyIffAllSpace`. |
| `Text.StartsWith` | src/pages/Ask.tsx:106-107 | Definition (`s.startsWith(p)`); used by `SseStream.Classify` and characterised through `SseStream.StrippedDataLine`. |
| `Text.EndsWith` | src/pages/Ask.tsx:105 | Definition (`s.endsWith(p)`); characterised through the contract of `SseStream.StripCR`. |
| `Text.TrimEndFacts` | src/pages/Ask.tsx:106 | `trimEnd` removes exactly a white-space suffix: it keeps a prefix of the string, everything it drops is white space, and what it keeps is empty or does not end in white space. |
| `Text.TrimFacts` | src/pages/Ask.tsx:106-107 | `trim` keeps one contiguous piece of the string. Everything dropped before and after it is white space, and the piece neither starts nor ends with white space. |
| `Text.TrimEmptyIffAllSpace` | src/pages/Ask.tsx:106 | `line.trim() === ""` holds exactly when the line is all white space. |
| `Text.TrimDropsTrailingSpace` | src/pages/Ask.tsx:109 | A trailing white-space character, such as a `\r`, does not change the trimmed payload. |
| `SseStream.NextLine` | src/pages/Ask.tsx:101-103 | The result is none exactly when the buffer has no `\n`; otherwise the buffer is the line, a `\n` and the rest, and the line contains no `\n`. |
| `SseStream.StripCR` | src/pages/Ask.tsx:105 | Exactly one trailing `\r` is removed when there is one; otherwise the line is kept. |
| `SseStream.Payload` | src/pages/Ask.tsx:109 | Definition (`line.slice(6).trim()`); characterised by `SseStream.StrippedDataLine` and `Text.TrimDropsTrailingSpace`. |
| `SseStream.Classify` | src/pages/Ask.tsx:106-115 | Definition; characterised by `SseStream.NoiseLineSkipped`, `SseStream.PassSkips`, `SseStream.PassAtDataLine` and `SseStream.MalformedStable`. |
| `SseStream.Feed` | src/pages/Ask.tsx:94-131 | Definition (one iteration of the read loop); characterised by `SseStream.RunSnoc` and `SseStream.StalledPass`. |
| `SseStream.FeedAll` | src/pages/Ask.tsx:94-131 | Definition (the read loop over a sequence of chunks); characterised by `SseStream.RunGrows` and `SseStream.FailureFreezesContent`. |
| `SseStream.Run` | src/pages/Ask.tsx:94-131 | Definition (the whole reply); characterised by `SseStream.RunUntilFail`, `SseStream.CleanReplyReassembles`, and the contract of `AskChat.AskPage.Respond`. |
| `SseStream.Pass` | src/pages/Ask.tsx:101-130 | The content only grows at its end, and the buffer never grows. A pass that drains leaves no `\n` in the buffer. A buffer without `\n` is left untouched. |
| `SseStream.NoiseLineSkipped` | src/pages/Ask.tsx:106-107 | A comment line, a white-space-only line or a line without the `data: ` prefix is dropped, and the content is unchanged. |
| `SseStream.PassSkips` | src/pages/Ask.tsx:106-107 | The same, with blankness tested by trimming as the handler does. |
| `SseStream.PassAtDataLine` | src/pages/Ask.tsx:109-129 | On a data line the result depends on the payload. `[DONE]` ends the pass with the rest of the buffer untouched. A parse failure ends it with the line put back. A non-empty delta is appended. Anything else is skipped. |
| `SseStream.PassStep` | src/pages/Ask.tsx:101-125 | A line that neither is the sentinel nor fails to parse is handled, and the pass continues on the rest of the buffer. |
| `SseStream.RunGrows` | src/pages/Ask.tsx:116 | The accumulated content after any prefix of the chunks is a prefix of the final content. |
| `SseStream.NextLineAppend` | src/pages/Ask.tsx:98-103 | Appending a chunk does not change the first line of a buffer that already holds a newline. |
| `SseStream.SplitLinesInverse` | src/pages/Ask.tsx:101-103 | Splitting into lines loses no character: every line followed by its newline, then the tail, gives back the text. |
| `SseStream.SplitLinesAppend` | src/pages/Ask.tsx:98-103 | Appending text adds lines only after the existing ones. |
| `SseStream.DeltasAppend` | src/pages/Ask.tsx:116 | The deltas of consecutive runs of lines concatenate in order. |
| `SseStream.CleanPass` | src/pages/Ask.tsx:101-125 | On a buffer with no sentinel or malformed line, a pass appends the deltas of all complete lines and keeps only the unterminated tail. |
| `SseStream.CleanReplyReassembles` | src/pages/Ask.tsx:94-131 | For such a reply, the final state is the deltas of all complete lines of the whole text, with the unterminated tail left in the buffer. |
| `SseStream.PassUntilFail` | src/pages/Ask.tsx:101-128 | On a buffer with no sentinel line, a pass appends the deltas of the lines before the first malformed one. It fails exactly when some line is malformed. When none is, it keeps only the unterminated tail. |
| `SseStream.RunUntilFail` | src/pages/Ask.tsx:94-131 | For a reply with no sentinel line, the final content is the deltas of the complete lines before the first malformed one. With no malformed line, the buffer is the unterminated tail; otherwise the buffer is stuck on a malformed line. |
| `SseStream.ChunkingInvariance` | src/pages/Ask.tsx:94-131 | For a reply with no sentinel line, any chunking accumulates the same content as one read. When no line is malformed, the whole final state is the same as well. |
| `SseStream.UnterminatedTextStaysBuffered` | src/pages/Ask.tsx:95-101 | Text without a newline is never handled. Appended before a pass, it ends up, unchanged, at the end of the buffer the pass leaves. |
| `SseStream.StrippedDataLine` | src/pages/Ask.tsx:105-109 | Stripping the `\r` of a data line keeps it a data line with the same payload. |
| `SseStream.MalformedStable` | src/pages/Ask.tsx:105-113 | A line that fails to parse still fails after one more `\r` is stripped. |
| `SseStream.RebufferedLineFirst` | src/pages/Ask.tsx:127 | The line put back in front of the rest is again the first line of the buffer. |
| `SseStream.FailedPassStalls` | src/pages/Ask.tsx:126-128 | A pass that stops on a parse failure leaves a buffer whose first line fails again. |
| `SseStream.StalledPass` | src/pages/Ask.tsx:94-128 | On such a buffer, every later pass stops at once, whatever chunk arrives, and the content is unchanged. |
| `SseStream.FailureFreezesContent` | src/pages/Ask.tsx:94-131 | After one failed pass, no later chunk changes the content. |
| `SseStream.SentinelEndsOnlyThePass` | src/pages/Ask.tsx:94-110 | Take a sentinel line followed by a data line. In one chunk they yield no content; in two chunks they yield the delta. |
| `SseStream.SentinelSameChunk` | src/pages/Ask.tsx:110 | When the reply ends with that chunk, lines after the sentinel in the same chunk are not handled. (They stay in the buffer, and the next chunk's pass would handle them.) |
| `SseStream.SentinelEarlierChunk` | src/pages/Ask.tsx:94-96 | A data line in the chunk after the sentinel is still handled. |
| `SseStream.SentinelExample` | src/pages/Ask.tsx:109-116 | The lines `data: [DONE]` and `data: x` meet the conditions of the sentinel lemma. |
| `SseStream.FeedLine` | src/pages/Ask.tsx:98-125 | One newline-terminated line fed to an empty buffer is handled: the sentinel changes nothing, and a delta is appended. |
| `SseStream.RunSnoc` | src/pages/Ask.tsx:94-98 | Each further chunk is one more step of the read loop. |
| `AskChat.SubmittedText` | src/pages/Ask.tsx:40 | Definition (the suggested question when given, otherwise the trimmed input); its meaning is stated by the contract of `AskChat.AskPage.Submit`. |
| `AskChat.Streams` | src/pages/Ask.tsx:63-87 | Definition; by the contract of `AskChat.AskPage.Respond`, an assistant message is appended exactly when it holds. |
| `AskChat.AskPage.constructor` | src/pages/Ask.tsx:24-26 | The page starts with no messages, an empty input and no reply loading. |
| `AskChat.AskPage.EditInput` | src/pages/Ask.tsx:268 | The input becomes the typed text, and nothing else changes. |
| `AskChat.AskPage.Submit` | src/pages/Ask.tsx:39-46 | The submission is accepted exactly when the text (a non-empty suggested question, or else the trimmed input) is non-empty and no reply is loading. If accepted, exactly one user message with that text is appended, the input is cleared and loading starts; if not, nothing changes. |
| `AskChat.AskPage.Respond` | src/pages/Ask.tsx:63-141 | A 429 or a 402 status gives its own notice and adds no message. A failed fetch, a non-ok status or a missing body gives the error notice and adds no message. Otherwise exactly one assistant message is appended, holding the content `Run` assembles from the chunks, and earlier messages are unchanged. In every case loading ends and the input is kept. |
| `Lists.Without` | src/pages/Tools.tsx:131-133 | Only elements of the list survive, and none with the deleted id. |
| `Lists.WithoutAppend` | src/pages/Tools.tsx:132 | Deletion distributes over concatenation, so the survivors keep their relative order. |
| `Lists.WithoutKeepsOthers` | src/pages/Learn.tsx:73 | Every element with another id survives, and no element with the id is left. |
| `Lists.WithoutAbsent` | src/pages/Learn.tsx:73 | A list without the id is unchanged by deletion. |
| `Lists.WithoutIdempotent` | src/pages/Tools.tsx:132 | Deleting twice is deleting once. |
| `Lists.WithoutFresh` | src/pages/Tools.tsx:118 | Deleting the id of a new first element whose id is not in the list gives back the list. |
| `Tools.IsNumber` | src/pages/Tools.tsx:80 | Definition (`!isNaN(Number(s))` for decimal text); characterised by `Tools.SingleKeyNumber` and `Tools.KeypadAtZero`. |
| `Tools.AfterKey` | src/pages/Tools.tsx:79-87 | A number typed at `0` replaces it. Any key typed at `Error` replaces it. Otherwise the key is appended. |
| `Tools.KeypadAtZero` | src/pages/Tools.tsx:80-85 | At `0`, each keypad key replaces the display exactly when it is a digit; `0` then `.` gives `0.`. |
| `Tools.SingleKeyNumber` | src/pages/Tools.tsx:80 | A one-character key that is not white space is a number exactly when it is a digit. |
| `Tools.Backspaced` | src/pages/Tools.tsx:200 | The last character is dropped, empty becomes `0`, and the result is never empty. |
| `Tools.BackspaceUndoesKey` | src/pages/Tools.tsx:79-87 | Backspace after one typed character gives back any non-empty display other than `Error`. |
| `Tools.Substituted` | src/pages/Tools.tsx:97 | Every `×` becomes `*` and every `÷` becomes `/`; every other character and the length are kept. |
| `Tools.SubstitutedIdempotent` | src/pages/Tools.tsx:97 | No `×` or `÷` is left, and substituting again changes nothing. |
| `Tools.WithReminder` | src/pages/Tools.tsx:108-119 | A blank text leaves the list unchanged. Otherwise one new reminder goes first: it has the given id and text, is unchecked, and is stamped with the clock reading. The old list is the tail. |
| `Tools.Flipped` | src/pages/Tools.tsx:126 | Definition; characterised by the contract of `Tools.Toggled`. |
| `Tools.Toggled` | src/pages/Tools.tsx:123-129 | Length and order are kept. Ids, texts and times are kept, and `completed` is flipped exactly on the reminders with the id. |
| `Tools.ToggleTwice` | src/pages/Tools.tsx:123-129 | Toggling the same id twice restores the list. |
| `Tools.TogglesCommute` | src/pages/Tools.tsx:123-129 | Toggles of two ids commute. |
| `Tools.RemoveAfterAdd` | src/pages/Tools.tsx:108-133 | Deleting a just-added reminder with a new id gives back the list before the add. |
| `Tools.RemoveAfterToggle` | src/pages/Tools.tsx:123-133 | Deleting after toggling the same id is the same as deleting. |
| `Tools.ToolsPage.constructor` | src/pages/Tools.tsx:53-61 | The display starts at `0`, the expression and the new-reminder text empty, and the reminders loaded from storage. |
| `Tools.ToolsPage.PressKey` | src/pages/Tools.tsx:79-87 | The display becomes `AfterKey` of the old display, and nothing else changes. |
| `Tools.ToolsPage.Clear` | src/pages/Tools.tsx:89-92 | The display becomes `0`, the expression becomes empty, and the reminders are kept. |
| `Tools.ToolsPage.Backspace` | src/pages/Tools.tsx:200 | The display is backspaced, and nothing else changes. |
| `Tools.ToolsPage.Equals` | src/pages/Tools.tsx:94-105 | The substituted display is evaluated. On a value, the expression becomes the old display plus ` =` and the display becomes the value. On a throw, the display becomes `Error` and the expression is kept. |
| `Tools.ToolsPage.EditNewReminder` | src/pages/Tools.tsx:234 | The new-reminder text becomes the typed text. |
| `Tools.ToolsPage.AddReminder` | src/pages/Tools.tsx:108-121 | A reminder is added exactly when the trimmed text is non-empty; the list becomes `WithReminder` of the old list, and the input is cleared only on an add. |
| `Tools.ToolsPage.ToggleReminder` | src/pages/Tools.tsx:123-129 | The list becomes `Toggled` of the old list. |
| `Tools.ToolsPage.DeleteReminder` | src/pages/Tools.tsx:131-133 | The list keeps, in order, the reminders with another id. |
| `Learn.Saveable` | src/pages/Learn.tsx:50 | Definition; characterised by the contracts of `Learn.WithNote` and `Learn.LearnPage.AddNote`. |
| `Learn.WithNote` | src/pages/Learn.tsx:49-68 | A blank title or blank content leaves the notes unchanged. Otherwise one note goes first: it has the given id, title and content, and is stamped with the clock reading. The old list is the tail. |
| `Learn.DeleteAfterAdd` | src/pages/Learn.tsx:49-73 | Deleting a just-added note with a new id gives back the list before the add. |
| `Learn.ResultBadge` | src/pages/Learn.tsx:331 | 🎉 exactly when the score equals the quiz length. 👍 exactly when it does not, but the score is at least half the length. 📚 otherwise. |
| `Learn.BadgeMonotone` | src/pages/Learn.tsx:331 | Within a quiz, a higher score never shows a lower badge. |
| `Learn.LearnPage.constructor` | src/pages/Learn.tsx:30-41 | Every field starts at its initial value, and the invariant holds. |
| `Learn.LearnPage.EditNote` | src/pages/Learn.tsx:237-242 | The title and content inputs take the typed text, and nothing else changes. |
| `Learn.LearnPage.EditTopic` | src/pages/Learn.tsx:307 | The topic takes the typed text, and nothing else changes. |
| `Learn.LearnPage.AddNote` | src/pages/Learn.tsx:49-70 | A note is added exactly when the trimmed title and content are both non-empty; the notes become `WithNote`, and the inputs are cleared only on an add. |
| `Learn.LearnPage.DeleteNote` | src/pages/Learn.tsx:72-75 | The notes keep, in order, those with another id. |
| `Learn.LearnPage.StartGenerate` | src/pages/Learn.tsx:78-92 | Generation starts when not already generating and the trimmed topic is non-empty. Starting clears the questions and resets the current question, the score and the result flag. Otherwise nothing changes. The selected answer is never touched. |
| `Learn.LearnPage.FinishGenerate` | src/pages/Learn.tsx:94-120 | Loaded questions replace the empty quiz, a failure leaves it empty, and generation ends. |
| `Learn.LearnPage.Answer` | src/pages/Learn.tsx:123-130 | The answer is ignored when one is already selected. Otherwise the choice is recorded, and the score goes up by exactly one iff the choice is the current question's correct index. The invariant (the score is at most the number of questions answered and at most the quiz length) is kept. |
| `Learn.LearnPage.Advance` | src/pages/Learn.tsx:131-138 | Before the last question, the quiz moves to the next one and the selection is cleared. On the last question, the result is shown and the quiz stays there. The current question stays inside the quiz, and the score is kept. |
| `Learn.LearnPage.ResetQuiz` | src/pages/Learn.tsx:141-148 | Every quiz field and the topic return to their initial values. |
| `QuizProxy.TryStar` | supabase/functions/generate-quiz/index.ts:46 | A successful star ends the match just after a `}` that lies after the `{`. |
| `QuizProxy.Search` | supabase/functions/generate-quiz/index.ts:46 | A match found from a position starts at or after it and ends within the text. |
| `QuizProxy.KeyConfigured` | supabase/functions/generate-quiz/index.ts:17 | Definition; characterised by `QuizProxy.MissingKeyFails` and `QuizProxy.HandleSucceeds`. |
| `QuizProxy.Matched` | supabase/functions/generate-quiz/index.ts:46 | Definition (the regex engine's leftmost backtracking match); characterised by `QuizProxy.MatchIsGreedySpan`. |
| `QuizProxy.GreedySpan` | supabase/functions/generate-quiz/index.ts:46 | A span, when there is one, starts with `{` and ends with `}`. |
| `QuizProxy.TryStarIsLastBrace` | supabase/functions/generate-quiz/index.ts:46 | When the star backs off from a position, it stops at the last `}` at or before that position and after the `{`. |
| `QuizProxy.TryStarWhole` | supabase/functions/generate-quiz/index.ts:46 | From a `{`, the star ends just after the last `}` of the text, or fails when that `}` does not lie after the `{`. |
| `QuizProxy.SearchFails` | supabase/functions/generate-quiz/index.ts:46-47 | With no `}` at or after a position, no match starts there. |
| `QuizProxy.SearchFindsGreedySpan` | supabase/functions/generate-quiz/index.ts:46 | The engine's leftmost match runs from the first `{` to the last `}`. |
| `QuizProxy.MatchIsGreedySpan` | supabase/functions/generate-quiz/index.ts:46-47 | The regex match equals the closed-form span. There is no match iff no `}` follows the first `{`. |
| `QuizProxy.SpanCoversLaterObjects` | supabase/functions/generate-quiz/index.ts:46 | `{a} x {b}` matches as a whole, not as its first object. |
| `QuizProxy.Handle` | supabase/functions/generate-quiz/index.ts:8-61 | A preflight gets no body and the CORS headers. Every other request gets either the single 500 error or a 200 with a body and the JSON headers. |
| `QuizProxy.MissingKeyFails` | supabase/functions/generate-quiz/index.ts:15-17 | A missing or empty API key gives the 500 error. |
| `QuizProxy.GatewayErrorFails` | supabase/functions/generate-quiz/index.ts:40 | A non-ok gateway response gives the 500 error. |
| `QuizProxy.MissingContentFails` | supabase/functions/generate-quiz/index.ts:43-47 | Missing content is read as `""`, has no span, and gives the 500 error. |
| `QuizProxy.HandleSucceeds` | supabase/functions/generate-quiz/index.ts:13-59 | A request that is not a preflight succeeds iff the body is readable, the key is set, the gateway answers ok, its body has choices, the content holds a span and the span parses. On success the body is the serialised parse of exactly that span, with the JSON headers. |

## Left out

- The network, `fetch`, `Response` objects and the SSE endpoint are not modelled. Their outcomes are inputs: `ChatReply`, `QuizReply` and `Upstream`.
- `TextDecoder` is treated as the identity on string chunks, so multi-byte
  characters split across reads are not modelled.
- Strings are sequences of code points, not UTF-16 code units.
- `JSON.parse` and `JSON.stringify` are parameters. A payload such as `null`,
  whose property access throws inside the `try`, counts as a parse failure.
- A read error in the middle of the stream is not modelled. An error thrown
  after the assistant placeholder was appended would leave that message in place.
- The request bodies and prompts sent to the gateway are out of scope, and so
  are the stale `messages` closure used to build the chat request, the scrolling,
  the clipboard and the toasts' texts. Only which toast is raised is modelled.
- `localStorage` loading and saving of reminders is out of scope: the saved list
  is the constructor's parameter.
- The random fact and quote pickers are out of scope, because they use randomness.
- The `summarize` function and the summary tab are out of scope, because they
  are thin wrappers over the gateway.
- The calculator's evaluator is a parameter of type `Evaluator`, returning the
  result as text or a throw, so arithmetic and floating point are not modelled.
- `Tools.AfterKey`: `!isNaN(Number(key))` is modelled for decimal text only, with
  white space trimmed, an optional sign and at most one decimal point. Exponents,
  `0x`/`0o`/`0b` prefixes and `Infinity` are not recognised as numbers, which
  matters only for keys that are not on the keypad. `Tools.KeypadAtZero` covers
  every key that is.
- Ids made from `Date.now()` are parameters, and nothing guarantees they are unique.
- `Learn.LearnPage.Advance`: it reads the current fields, whereas the source's timer callback reads the values it captured when the answer was given. React's stale closures and update batching are not modelled. Handlers are sequential transitions, and a reset does not cancel a pending timer.
- `Learn.LearnPage.FinishGenerate`: a reply whose `questions` field is missing is
  not modelled. `QuizReply` carries a sequence of questions or a failure.
- `AskChat.AskPage.Respond`: it is the continuation of an accepted `Submit`. It
  is not tied to `isLoading` being set, because the stream loop does not depend
  on it.
