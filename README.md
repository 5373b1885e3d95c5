# Clawdbot dashboard: chat pipeline and server helpers, in Dafny

This project models the two parts of the Clawdbot dashboard that hold logic of their own.

**The browser side (`public/app.js`).** It turns the lines of a Clawdbot session log into
the chat panel:
- `extractTextContent` flattens a message's content into display text.
- `parseSessionLines` makes one forward pass over the log lines. It skips blank and
  unparseable lines, skips repeated ids and caps the count. It maps the three record forms
  (`{type: "message", message}`, `{role, content}`, `{text}`) to messages and strips the
  `[Dashboard …]` / `[Telegram …]` wrapper from user text.
- `renderMessages` drops placeholder assistant messages that directly follow a kept
  assistant message.
- `refreshLogs` and `sendChatMessage` keep `messageHistory` and `pendingMessages` up to
  date. Pending messages are the ones sent from the dashboard that the log does not show
  yet.

**The server side (`server.js`).** It reaches the bot's host over ssh:
- `expandTilde`, `sshArgs` and the commands it runs there;
- the single-quote escape it uses to `echo` a JSON record into the session file;
- the session id it reads off a file path;
- the `/api/status`, `/api/logs` and `/api/chat` handlers, which assemble a result and an
  error list from remote calls.

Modules, one per file:
- `JsValues`: JavaScript values and the built-ins used on them (truthiness, `String()`,
  `join`, `split`, `includes`, `trim`).
- `TextContent`: `extractTextContent`.
- `MetadataWrapper`: the wrapper regular expression
  `/\[(Telegram|Dashboard)[^\]]*\]\s*(.+?)(?:\n\[message_id:\s*\d+\])?$/s`, written out as
  the leftmost match it computes.
- `SessionLog`: `parseSessionLines`. It is a `method` with the source's loop, proved
  against the function `Emitted`. The pass is defined for any iteration step, so that
  the lemmas about its shape hold whatever one line does. `Pass` is the source's own
  iteration.
- `RenderFilter`: the filter loop in `renderMessages`, proved against the function `Kept`.
- `ChatState`: the module-level state of the chat panel, as a class `ChatView`.
- `ShellQuote`: the escape, and a reader for one shell word under section 2.2 (Quoting) of
  POSIX.1-2017 Shell Command Language.
- `Remote`: ssh arguments, remote commands and session ids.
- `Handlers`: the three HTTP handlers. The `ssh` and `aws` processes are functions from an
  argument vector to an outcome.
- `EndToEnd`: a message sent through `/api/chat` comes back through `parseSessionLines` as
  the typed text.

Where a comment and the code disagree, the model follows the code. The comment above the
`renderMessages` filter (public/app.js:217) says "keep only latest", but the loop keeps the
EARLIER message of a run of placeholders. `RenderFilter.KeepsEarliest` states this. In the
same way, the comment at public/app.js:316 says "limit to last 50", but `parseSessionLines`
stops after the FIRST 50 messages of the tail it is given. Once the tail holds more than 50
messages, newer ones never reach the panel. `SessionLog.ParseSessionLines` states this.

`renderMessages` logs `m.content?.substring(0, 50)` for every message before it draws
anything (public/app.js:204). A `{text: [...]}` record becomes a system message whose
content is that array, and an array has no `substring`, so the call throws.
`ChatState.TextArrayBreaksRender` shows such a record. In `refreshLogs` the history and the
pending list are already updated when this happens, and the panel shows the load error. In
`sendChatMessage` the first render is outside the `try`: the message is never posted, the
status stays "Sending..." and the button stays disabled. `ChatState.ChatView` models all
three.

`Set.prototype.has` compares objects and arrays by identity, and `JSON.parse` makes fresh
ones. So the duplicate-id check (public/app.js:112-113) only ever skips records whose id is
a truthy primitive, and the distinct-id lemmas are stated for those ids.

## Model

| member | source | states |
|---|---|---|
| `JsValues.Split` | server.js:179 | `split` on one character always yields at least one piece |
| `JsValues.SplitJoin` | server.js:191 | joining the pieces of `split(c)` with `c` gives back the text |
| `JsValues.SplitPiecesFree` | server.js:179 | no piece of `split(c)` holds `c` |
| `JsValues.ItemsToStrJoin` | public/app.js:327 | `join` on array elements is `join` on the strings they render as, `null` and `undefined` giving "" |
| `JsValues.ContainsAt` | public/app.js:330 | `includes` holds whenever the needle occurs at some index |
| `JsValues.ContainsWhere` | public/app.js:330 | `includes` holds only when the needle occurs at some index |
| `JsValues.TrimEmpty` | public/app.js:105 | `trim()` yields "" exactly when every character is ECMAScript whitespace, which is when `!line.trim()` skips the line |
| `JsValues.TrimEdges` | public/app.js:83 | a non-empty trimmed text begins and ends with a non-whitespace character |
| `JsValues.TrimIdempotent` | public/app.js:144 | trimming twice is trimming once |
| `TextContent.PartText` | public/app.js:61-80 | a string part is kept as it is; a thinking or tool part gives a falsy value; any other object part with a truthy `text`, typed "text" or not, gives that `text`; any other truthy result is the part's `text` field; a part that is neither a string nor an object gives "" |
| `TextContent.Pieces` | public/app.js:61-81 | the texts `join(" ")` receives: `PiecesConcat`, `SilentPartIgnored` and `ShownPieces` state what they are |
| `TextContent.ExtractTextContent` | public/app.js:53-95 | falsy content and the empty array give ""; a string is returned unchanged; a number or boolean gives ""; an object gives its `text` only when that is a string; the text from an array has no whitespace at either end |
| `TextContent.SilentPartIgnored` | public/app.js:61-83 | a part that maps to a falsy value can be inserted anywhere in the array without changing the text |
| `TextContent.HiddenPartIgnored` | public/app.js:68-75 | `thinking`, `tool_call`, `tool_result` and `toolCall` parts contribute nothing |
| `TextContent.ShownPieces` | public/app.js:61-81 | each non-empty string element, and each part that is not hidden and has a non-empty string `text`, contributes exactly that text, in order |
| `TextContent.ShownPartsJoined` | public/app.js:59-83 | such parts, string elements and `text` parts alike, are joined with single spaces and the whole is trimmed |
| `MetadataWrapper.FirstClose` | public/app.js:141 | `[^\]]*\]` stops at the first `]` after the tag, or the match fails when there is none |
| `MetadataWrapper.LazyEnd` | public/app.js:141 | the lazy group ends at the first place after which only the end of text or one whole `\n[message_id: <digits>]` trailer remains |
| `MetadataWrapper.CapturedBody` | public/app.js:141-142 | group 2 is never empty, so every match is used |
| `MetadataWrapper.TrimmedDashboardText` | public/app.js:83 | the trimmed content of a dashboard message is the tag, the timestamp and the message with only its end trimmed |
| `MetadataWrapper.DashboardClose` | public/app.js:141 | in a dashboard text whose timestamp holds no `]`, the bracket closes right after the timestamp |
| `MetadataWrapper.BodyCaptured` | public/app.js:141-144 | with no trailer, the group after `] ` is the message trimmed |
| `MetadataWrapper.MatchAt` | public/app.js:141 | the wrapper match attempted at one index: the tag, the first `]`, then the group `CapturedBody` and `LazyEnd` describe |
| `MetadataWrapper.FindWrapper` | public/app.js:141 | the leftmost match: the first index at which `MatchAt` succeeds |
| `MetadataWrapper.UnwrapUserText` | public/app.js:139-146 | the displayed text: the trimmed group when the wrapper matches, the content otherwise; `UnwrapDashboard` states it for dashboard text |
| `MetadataWrapper.UnwrapDashboard` | public/app.js:139-146 | `[Dashboard <ts>] m`, with no `]` in `ts`, non-blank `m` and no trailer at the end of `m`, is displayed as `m` trimmed |
| `SessionLog.RecordForms` | public/app.js:114-183 | the message carries the record's id; its role is user, assistant or system; it is system exactly for the `{text}` form, whose content is the text and never a gateway notice; a `{text}` record yields a message exactly when its text is a string or an array and not a gateway notice; a `{text}` message's content is a string or an array; envelope and direct records yield a message exactly when their role is user or assistant, and then carry that role and string content; the timestamp is the record's, defaulting to the clock for the direct form only; other records yield nothing |
| `SessionLog.RecordMessage` | public/app.js:114-183 | the message one parsed record yields; `RecordForms` and `EnvelopeUserMessage` state what it is |
| `SessionLog.Step` | public/app.js:105-113 | one iteration of the loop before the cap; `StepRecordsId`, `StepEmits` and `SkipLine` state what it does |
| `SessionLog.StepRecordsId` | public/app.js:111-113 | an iteration only adds ids, and a message it emits carries an id not seen before and now recorded |
| `SessionLog.StepEmits` | public/app.js:105-114 | an iteration emits a message only for a non-blank line that parses, and the message is the one its record yields |
| `SessionLog.SkipLine` | public/app.js:105-113 | a blank or unparseable line, or one whose id was seen, emits and records nothing |
| `SessionLog.TakeLine` | public/app.js:110-184 | a line whose record is taken records its truthy id and puts its message, if any, before the rest |
| `SessionLog.ParseSessionLines` | public/app.js:97-191 | the loop returns at most `maxMessages` messages: the first `maxMessages` that the uncapped pass emits |
| `SessionLog.EmitConcat` | public/app.js:104-187 | for any iteration step, the pass over `a + b` is the pass over `a` followed by the pass over `b` with the ids `a` recorded |
| `SessionLog.SeenAfterConcat` | public/app.js:104-113 | the ids recorded over `a + b` are those recorded over `b` starting from the ids `a` recorded |
| `SessionLog.SilentStep` | public/app.js:105-109 | a blank or unparseable line emits nothing and records nothing |
| `SessionLog.EnvelopeUserMessage` | public/app.js:115-157 | a user record in the envelope form with text is shown with its text unwrapped, its id and its timestamp |
| `SessionLog.SilentLineIgnored` | public/app.js:105 | a blank or unparseable line changes nothing, wherever it stands and whatever the cap |
| `SessionLog.SeenGrows` | public/app.js:113 | the set of seen ids only grows |
| `SessionLog.EmittedIdsFresh` | public/app.js:112 | an emitted truthy primitive id was not in the set the pass started from |
| `SessionLog.EmittedIdsDistinct` | public/app.js:111-113 | no two emitted messages share a truthy primitive id |
| `SessionLog.SessionIdsDistinct` | public/app.js:111-113 | the returned, capped messages never repeat a truthy primitive id |
| `SessionLog.RecordIdsSeen` | public/app.js:113 | a record's truthy primitive id is recorded even when the record yields no message |
| `SessionLog.RepeatedIdSkipped` | public/app.js:112 | a record repeating the id of any earlier record adds nothing, even when the earlier one was itself filtered out |
| `SessionLog.EmittedSources` | public/app.js:104-187 | for any iteration step, each emitted message is what the step emitted on its own line, the lines in increasing order |
| `SessionLog.EmittedInOrder` | public/app.js:104 | each emitted message is the message of its own non-blank, parseable line, and the lines are in increasing order |
| `SessionLog.EmittedRoles` | public/app.js:150-182 | every emitted role is user, assistant or system; no system message is a gateway notice; every content is a string, or an array for a system message |
| `RenderFilter.FilterMessages` | public/app.js:217-231 | the loop's output is `Kept` of its input |
| `RenderFilter.Kept` | public/app.js:217-231 | the filtered list; `KeptSelection`, `DroppedExactly`, `NonPlaceholdersKept` and `KeepsEarliest` state what it keeps |
| `RenderFilter.KeptSnoc` | public/app.js:224-230 | one more message is skipped exactly when it is a placeholder and the last kept message is from the assistant; otherwise it is appended |
| `RenderFilter.KeptSelection` | public/app.js:217-231 | the output is an order-preserving selection of the input that begins with the first message |
| `RenderFilter.NonPlaceholdersKept` | public/app.js:225-227 | every message that is not an empty, "(no content)" or "(thinking...)" assistant message is kept |
| `RenderFilter.KeptIndexesSnoc` | public/app.js:224-230 | the indexes kept from a list are those kept from all but its last message, plus the last index unless that message is skipped |
| `RenderFilter.DroppedExactly` | public/app.js:225-228 | a message is dropped exactly when it is a placeholder and the last message kept before it is from the assistant |
| `RenderFilter.KeptPlaceholderFollowsOther` | public/app.js:225-230 | in the output no placeholder follows an assistant message |
| `RenderFilter.KeptIdempotent` | public/app.js:217-231 | filtering the output again changes nothing |
| `RenderFilter.KeepsEarliest` | public/app.js:217-231 | after an assistant message a run of placeholders is dropped entirely, so the earlier message is kept |
| `ChatState.ServerContent` | public/app.js:327 | the contents joined with bars; `JoinHas` and `ConfirmedDropped` state what it holds |
| `ChatState.KeepUnconfirmed` | public/app.js:328-331 | the reconciliation filter never lengthens the list; the lemmas below state what it keeps |
| `ChatState.KeepUnconfirmedMembers` | public/app.js:327-331 | a pending message is kept exactly when its content does not occur in the server contents joined with `|` |
| `ChatState.KeepUnconfirmedConcat` | public/app.js:328-331 | the filter keeps the order: filtering `a + b` is filtering `a`, then `b` |
| `ChatState.KeepUnconfirmedCount` | public/app.js:328-331 | an unconfirmed message is kept as often as it occurs, a confirmed one not at all |
| `ChatState.JoinHas` | public/app.js:327 | `join` puts each element somewhere in its result |
| `ChatState.ConfirmedDropped` | public/app.js:327-331 | a pending message whose content a server message has word for word is dropped |
| `ChatState.SubstringConfirms` | public/app.js:330 | a pending "ok" counts as confirmed by a server message "looks ok" |
| `ChatState.WithoutId` | public/app.js:382 | the failure filter never lengthens the list; the lemmas below state what it keeps |
| `ChatState.WithoutIdMembers` | public/app.js:382 | the failure filter keeps exactly the entries whose id differs from the temporary id |
| `ChatState.WithoutIdConcat` | public/app.js:382 | the failure filter keeps the order: filtering `a + b` is filtering `a`, then `b` |
| `ChatState.WithoutIdCount` | public/app.js:382 | an entry with another id is kept as often as it occurs |
| `ChatState.WithoutUniqueId` | public/app.js:382 | with ids unique, exactly the entry with the temporary id goes and the rest keep their order |
| `ChatState.WithoutAbsentId` | public/app.js:382 | an id no entry has removes nothing |
| `ChatState.WithoutFreshId` | public/app.js:360-382 | removing a pushed entry whose id no earlier entry has gives back the list from before the push |
| `ChatState.PendingMessage` | public/app.js:352-359 | the optimistic entry is a user message with the typed text, a string id and the ISO time |
| `ChatState.RenderThrowsAt` | public/app.js:204 | the render throws exactly when some message's content is neither a string, `null` nor `undefined` |
| `ChatState.PendingRenderSafe` | public/app.js:333 | pending messages never make the render throw: with them it throws exactly when the history alone does |
| `ChatState.TextArrayBreaksRender` | public/app.js:174-183 | a `{text: ["hello"]}` line becomes a system message with array content, and a history holding it cannot be drawn |
| `ChatState.ChatView.constructor` | public/app.js:25-27 | the session file is `null` and both message lists are empty |
| `ChatState.ChatView.Render` | public/app.js:203-231 | the call throws exactly when some content cannot take `substring`, and then the panel is left as it was; otherwise it shows the filtered history followed by the pending messages; nothing else changes |
| `ChatState.ChatView.RefreshLogs` | public/app.js:302-342 | on a reply: the session file is recorded, the history becomes the first 50 messages parsed from the lines, the confirmed pending messages are dropped, and the panel is redrawn, or shows the render's error when the new history cannot be drawn; on a failure only the panel changes, to the error |
| `ChatState.ChatView.Withdraw` | public/app.js:382-383 | the entries with the temporary id go and the panel is drawn without them |
| `ChatState.ChatView.Deliver` | public/app.js:364-396 | on a failed request the entry is withdrawn and the status is "Failed"; on success the log is re-read, with everything `RefreshLogs` states, and the status is "Ready"; the button is enabled either way |
| `ChatState.ChatView.SendChatMessage` | public/app.js:344-397 | a blank input changes nothing; otherwise a pending user message `pending-<ms>` is pushed and drawn; when the history cannot be drawn the call throws there, before any request, with the status "Sending..." and the button disabled; otherwise the log is re-read on success, with the new session file and panel, or the entries with that id are removed on failure; the button is then enabled |
| `ShellQuote.Escape` | server.js:234 | a text without `'` is left as it is |
| `ShellQuote.SingleQuotedChar` | server.js:235 | inside single quotes any character but `'` is literal |
| `ShellQuote.QuoteEscapeRead` | server.js:234 | inside single quotes, `'"'"'` reads as one `'` |
| `ShellQuote.ReadEscaped` | server.js:234-235 | inside single quotes the escaped text reads back as the original |
| `ShellQuote.SingleQuotedRoundTrip` | server.js:234-235 | `'<escaped s>'` followed by a word end reads back as exactly `s` |
| `ShellQuote.EscapeWellEscaped` | server.js:234 | the escaped text has no `'` outside the five-character `'"'"'` pattern |
| `Remote.ExpandTilde` | server.js:15-18 | an empty path, or one not starting with `~`, is returned unchanged; otherwise the rest is joined onto the home directory |
| `Remote.SshArgs` | server.js:63-77 | nine arguments, with the expanded key path second and `user@host` last |
| `Remote.SshCall` | server.js:80 | every remote call is the ssh arguments unchanged plus exactly one command |
| `Remote.SshOptionsFixed` | server.js:66-74 | batch mode, a 5-second connect timeout and `accept-new` host-key checking, the same for every call and configuration |
| `Remote.AwsDescribeArgs` | server.js:33-45 | the `aws ec2 describe-instances` arguments for the configured region and instance, asking for the state name as text |
| `Remote.LatestFileCommand` | server.js:86 | lists the files matching the glob newest first and keeps the first name |
| `Remote.TailCommand` | server.js:93 | `tail -n <lines> "<file>"`, with the line count through `String()` |
| `Remote.AppendCommand` | server.js:234-235 | `echo '<escaped line>' >> "<file>"`; `AppendEchoesLine` states what `echo` receives |
| `Remote.TouchCommand` | server.js:240 | `touch "<file>"` |
| `Remote.AppendEchoesLine` | server.js:235 | the word `echo` receives in the append command is exactly the JSON line, whatever quotes it holds |
| `Remote.IndexOf` | server.js:217 | the first occurrence of the pattern at or after an index, or none |
| `Remote.RemoveFirst` | server.js:217 | `replace` with a string pattern adds no character |
| `Remote.SessionId` | server.js:217 | the session id holds no `/` |
| `Remote.SplitAround` | server.js:217 | splitting at a separator splits the two sides separately |
| `Remote.SplitWithout` | server.js:217 | a text without the separator splits into itself |
| `Remote.LastSegment` | server.js:217 | `pop()` after `split('/')` gives the file name |
| `Remote.RemoveExtension` | server.js:217 | in `<name>.jsonl` with no `.` in the name, the `.jsonl` removed is the suffix |
| `Remote.SessionIdOfFile` | server.js:217 | the id of `<dir>/<name>.jsonl` is `name` |
| `Remote.SessionIdInnerOccurrence` | server.js:217 | the first `.jsonl` goes even when it is not a suffix: `<dir>/a.jsonl.bak` gives `a.bak` |
| `Handlers.Reason` | server.js:141 | `err.stderr || err.message` is the stderr, or the message when the stderr is empty |
| `Handlers.ApiStatus` | server.js:130-152 | `awsState` is the trimmed output, or "unknown" when the call fails; `sshOk` holds exactly when ssh answers "ok"; there is one error per failed call, the aws entry first |
| `Handlers.NonEmpty` | server.js:179 | `filter(Boolean)` keeps exactly the non-empty strings |
| `Handlers.NonEmptyConcat` | server.js:179 | `filter(Boolean)` keeps the order: filtering `a + b` is filtering `a`, then `b` |
| `Handlers.NonEmptyCount` | server.js:179 | `filter(Boolean)` keeps every non-empty string as often as it occurs |
| `Handlers.ApiLogs` | server.js:164-198 | session lines hold no empty string; run lines are the split output and join back to it; a failed call replaces its list with one prefixed error; the session file stays set when only the tail fails |
| `Handlers.ApiChat` | server.js:200-248 | a missing, empty or non-string message gets 400 with no remote call; no session file gets 404 after one call; otherwise the record is appended and then the file touched; a failed append gives 500 with its reason after two calls, a failed touch 500 with its reason after three |
| `Handlers.DashboardEntry` | server.js:221-231 | the record `/api/chat` appends; `DashboardEntryFields` and `DashboardEntryText` state how it is read |
| `EndToEnd.DashboardEntryText` | server.js:228 | the appended record's content flattens to the wrapped text, trimmed, which is not empty |
| `EndToEnd.DashboardEntryFields` | server.js:221-231 | the record is a user record in the envelope form with the `dash_` id and the timestamp |
| `EndToEnd.DashboardEntryMessage` | public/app.js:115-157 | the record `/api/chat` writes is read as a user message showing the typed text, trimmed |
| `EndToEnd.SentMessageShown` | server.js:234-235 | the word `echo` receives is exactly the JSON line, and that line parses back as the typed message, trimmed |

## Left out

- The crontab editor is not part of this model. No source for it is in the repository.
- DOM and browser work is not modelled: element updates, `escapeHtml`, `formatTime`,
  the animation delay, scrolling, event listeners, `alert`, and `refreshStatus`. The chat
  panel is the `display` field of `ChatView`.
- Network and process I/O are outside the model: `fetch`, `execFile`, and reading
  `config.json`. The `ssh` and `aws` processes are functions of their argument vector, so
  two identical calls are taken to give the same outcome.
- `JSON.parse` and `JSON.stringify` are parameters. A line that does not parse is `None`.
- `Date.now()`, `new Date().toISOString()` and `Math.random()` are parameters.
- Numbers are integers. Fractions, NaN and their string forms are not modelled.
- The system-noise check on envelope records (public/app.js:124-136) is not modelled. It
  never changes the output, because a system role is never pushed in that form.
- The unused id comparison in `refreshLogs` (public/app.js:321-322) is not modelled.
- The 3-second polling loop and overlapping async refreshes are not modelled.
- `/api/config`, `/api/start` with `awsStart`, and the server's startup are not modelled.
- `sshAppendChat` (server.js:99-121) is not modelled; it is never called. Its escape is
  the one modelled for `/api/chat`.
- What `echo` does with backslashes differs between shells, and is not modelled.
- The double-quoted file paths in the remote commands are not escaped. The model claims
  nothing about them.
- Exceptions outside the handlers' `try` blocks are not modelled, for example a
  `config.json` that cannot be read.
- The configuration values are strings. `logTailLines` is the one exception: it is any
  value and goes through `String()`.
- `ShellQuote.ReadWord` gives up on unquoted `$`, backquote, `*`, `?`, `[`, `#` and `~`.
  It does not model expansions, which the escaped words never contain.
- `SessionLog.RecordForms`: for assistant records and direct-form records, the
  contract states the id, the role and that the content is a string. It does not state
  the text itself, which is `ExtractTextContent`'s result. The user envelope case is
  stated in full by `SessionLog.EnvelopeUserMessage`.
- `ChatState.ChatView.SendChatMessage`: the "Failed to send" notice appended to the panel,
  clearing the input box and focusing it are not modelled. Only the status text "Failed"
  and the send button's state are.
- `JsValues.ToStr` gives "[object Object]" for every object. In JavaScript an object whose
  own `toString` key is not a function makes `join` and template strings throw, and a
  parsed record can carry such a key. The model does not capture that throw.
- `ChatState.RenderError` is the wording V8 gives the TypeError. Other engines word it
  differently.
- One clock reading `now` stands for every `new Date().toISOString()` in a pass of
  `parseSessionLines`. The source reads the clock afresh for each direct-form record
  without a timestamp.
- `SessionLog.RecordMessage`, `SessionLog.Step`, `RenderFilter.Kept`,
  `ChatState.ServerContent`, `TextContent.Pieces`, `MetadataWrapper.MatchAt`,
  `MetadataWrapper.FindWrapper`, `MetadataWrapper.UnwrapUserText`, `Handlers.DashboardEntry`
  and the `Remote` command builders are definitions. The lemmas named in their rows state
  what they compute.
