# A Dafny model of the chatbot's send pipeline and server helpers

The system is a browser chat widget (`script.js`) talking to a small Python
HTTP server (`run_chatbot.py`) that forwards questions to the Gemini model.
This project models the deterministic core of both sides and proves
properties of the model:

- **Client.** The file allow-list and staging list (`isFileTypeSupported`,
  `handleFileSelect`, `removeFile`). One press of the send button
  (`handleSendMessage` with `handleFileUploads`) is modelled as an ordered list
  of events over a session record. Also modelled: the choice of error message
  (`getErrorMessage`), the five regular-expression passes of `formatMessage`,
  the settings merge of `loadSettings`, and the theme cycle of `toggleTheme`.
- **Server.** The path table of `do_POST` and the body checks of each handler.
  For the chat handler: the clear flag, and the prompt that
  `get_gemini_response` builds from the uploaded-file context. For the upload
  handler: the summary and raw text it stores (`process_uploaded_file`,
  `extract_raw_content`). Also the conversation listing and its newest-first
  sort.

Modules, one per file:

| file | module | what it holds |
|---|---|---|
| options.dfy | `Options` | `Option<T>` |
| seqs.dfy | `Seqs` | filtering a sequence, for the file pick and the Python line scan |
| text.dfy | `Text` | string helpers: JavaScript `trim`, Python `strip`, ASCII lower case, prefix, suffix and substring tests, `split`/`join`, `replace`, decimal numbers, Python string order |
| staging.dfy | `FileStaging` | the allow-list, picking files, removing a file |
| settings.dfy | `ClientSettings` | the settings record, the merge, the theme cycle |
| errors.dfy | `ErrorMessages` | the chat error text and `getErrorMessage` |
| formatter.dfy | `Formatter` | the five passes of `formatMessage` as scanners |
| turn.dfy | `SendTurn` | the send button as events; what a list of events amounts to |
| json.dfy | `Json` | JSON values with Python truthiness and `len` |
| context.dfy | `FileContext` | the uploaded-file dictionary and the prompt built from it |
| upload.dfy | `UploadSummary` | the upload branches, the preview, the Python and CSV analyses, the raw text |
| router.dfy | `Router` | `do_POST`, the handler checks, chat and upload against the shared context |
| listing.dfy | `ConversationList` | the conversation rows and the stable newest-first sort |

Inputs stand in for the outside world:

- the outcome of each upload (including whether its preview lookup throws) and the reply to the message's request (client);
- the decoded payload of an upload and the ending of the call to the model (server);
- the files found in the conversations directory.

Strings are sequences of `char`, compared by code point as Python compares
them. The marks are the characters each file holds. In `script.js` the cross
is the three characters U+201A U+00F9 U+00E5 and the check mark is U+201A
U+00FA U+00D6 (a UTF-8 emoji read as Mac Roman). `run_chatbot.py` holds the
real U+274C and U+2705.

`removeFile` keeps only the staged files whose name differs from the given
one, so it drops every file of that name, not only the first.

## Model

| member | source | states |
|---|---|---|
| FileStaging.IsFileTypeSupported | script.js:383-400 | a file is accepted exactly when its MIME type is listed or its lower-cased name ends in a listed extension |
| Seqs.FilterMembers | script.js:365-373 | the files a pick stages are exactly the picked files that pass the test (the same filter picks the `def`, `class` and import lines of a Python upload) |
| FileStaging.AcceptedOrRefused | script.js:365-373 | every picked file is either staged or refused with a notice, never both |
| Seqs.FilterAppend | script.js:365-373 | files are judged one by one, so picking two batches is picking their concatenation |
| FileStaging.SelectFiles | script.js:365-373 | `handleFileSelect` keeps the old staged files in front, appends the accepted ones in pick order, and gives one notice per refused file |
| FileStaging.Pick | script.js:366-373 | the pick loop appends accepted files and collects refusal notices, for any acceptance test |
| FileStaging.RemoveFileMembers | script.js:457-459 | after removal, exactly the staged files with other names remain |
| FileStaging.RemoveFileAppend | script.js:457-459 | removal works file by file, so the survivors keep their order |
| FileStaging.RemoveFileAbsent | script.js:457-459 | removing a name nobody has changes nothing |
| FileStaging.RemoveFileIdempotent | script.js:457-459 | removing twice is removing once |
| FileStaging.RemoveFileCommutes | script.js:457-459 | removals of two names can happen in either order |
| FileStaging.UpperCasePdfAccepted | script.js:397-398 | the name test ignores case: `REPORT.PDF` with no type is accepted |
| FileStaging.ExecutableRefused | script.js:397-398 | `setup.exe` of an unlisted type is refused |
| ClientSettings.LoadSettings | script.js:63-69 | a saved record overrides exactly its own keys and keeps the others; with none, nothing changes |
| ClientSettings.LoadAfterSave | script.js:63-69 | a saved record holding every key is loaded back exactly |
| ClientSettings.LoadIdempotent | script.js:63-69 | loading the same record twice is loading it once |
| ClientSettings.LoadKeepsDefaultKeys | script.js:41-46 | a loaded record always has every default key |
| ClientSettings.ThemeIndex | script.js:209 | `indexOf` finds only the three theme strings and gives -1 for anything else |
| ClientSettings.NextThemeCycle | script.js:207-211 | light goes to dark, dark to auto, auto to light, anything else to light |
| ClientSettings.ToggleTheme | script.js:207-211 | only the theme key changes, and it becomes the next theme |
| ClientSettings.ToggleThreeTimes | script.js:207-211 | three presses from a listed theme give back the same record |
| ClientSettings.ToggleUnknownTheme | script.js:207-211 | an unknown or missing theme becomes light |
| ErrorMessages.ChatErrorText | script.js:676-679 | a failed chat reply raises the server's `error` text when it is non-empty, else `Server Error: <status>` |
| ErrorMessages.Classify | script.js:771-783 | each case holds exactly when its test passes and no earlier test does: `Server Error: 400`, then 403, then 429, then `Failed to fetch` or 503; otherwise none |
| ErrorMessages.ErrorMessage | script.js:771-783 | each of the four cases gets its own fixed text; any other error is quoted between a fixed prefix and suffix, and only those end with the suffix |
| ErrorMessages.ErrorMessageByTest | script.js:771-783 | each fixed message is shown exactly when its test is the first to pass |
| ErrorMessages.ErrorMessageQuotes | script.js:781 | the quoted error can be read back out of the message |
| ErrorMessages.ErrorMessageDeterminesCase | script.js:771-783 | two errors with the same message fall in the same case |
| ErrorMessages.StatusOnlyError | script.js:771-783 | a reply with no error text is classified by its status: 400, 403 and 429 have their own messages and 503 gets the connection message |
| ErrorMessages.ServerNamedError | script.js:771-783 | a server error text without a colon or capital F is quoted whatever the status, so the server's own 400 text is not mapped to the 400 message |
| Formatter.FindCloseFirst | script.js:913 | the lazy `(.*?)` stops at the first closing delimiter and never crosses a line terminator |
| Formatter.FindCloseAt | script.js:913 | the first closing delimiter reached within one line is where the lazy match stops |
| Formatter.PairPassSkip | script.js:913-915 | text without the delimiter's first character is copied through |
| Formatter.PairPassMatch | script.js:913-915 | a delimited one-line body is wrapped in the markup and the scan resumes after the closing delimiter |
| Formatter.FindFromFirst | script.js:917 | the lazy `[\s\S]*?` stops at the first closing fence, across lines |
| Formatter.FindFromAt | script.js:917 | the first closing fence is where the lazy code body stops |
| Formatter.FenceAt | script.js:917 | a fence match has a word tag and a code body without a fence |
| Formatter.Language | script.js:918 | the language label is the tag, or `plaintext` when there is none |
| Formatter.FencePassBlock | script.js:917-920 | a tagged fence with backtick-free code becomes one code block |
| Formatter.BreakLines | script.js:924 | no newline is left, and text without newlines is unchanged |
| Formatter.BreakLinesAppend | script.js:924 | line breaks are replaced piece by piece |
| Formatter.FormatMessage | script.js:909-927 | the output of `formatMessage` never holds a newline |
| Formatter.PlainTextUnchanged | script.js:909-927 | text without `*`, backtick or newline is returned unchanged |
| Formatter.FencedBlockFormat | script.js:917-924 | a fenced block is rendered as one `language-<tag>` block around the trimmed code, inner newlines becoming `<br>` |
| Formatter.BoldPassSkipsItalic | script.js:913 | the bold pass leaves single-asterisk emphasis alone |
| Formatter.InlineMarkup | script.js:909-927 | bold, italic and inline code on one line each become their markup |
| SendTurn.UploadReply | script.js:606-644 | an upload adds the server's summary on success, else a message that starts with the file's cross mark and names the file |
| SendTurn.UploadEvents | script.js:571-646 | one upload shows the indicator, posts the file unless reading it failed, hides the indicator and adds its reply |
| SendTurn.Reached | script.js:555-558 | the loop gets through exactly the staged files before the first one whose preview lookup throws |
| SendTurn.UploadAll | script.js:554-647 | the staged files are uploaded one after another up to the first selector error, four or five events each |
| SendTurn.UploadAllPosts | script.js:554-647 | a name is posted to `/upload` exactly when a staged file of that name comes before the first selector error and could be read |
| SendTurn.RouteOf | script.js:506-516 | `/search ` is checked before `/wiki ` on the lower-cased text; the query is cut from the text as typed; anything else is chat |
| SendTurn.RouteIgnoresCommandCase | script.js:506-512 | the command word may be in any case and the query keeps its case |
| SendTurn.BareCommandIsChat | script.js:506-511 | a command word without its space is an ordinary chat message |
| SendTurn.LookupText | script.js:691-769 | a search or lookup shows its results, or a failure text that it catches itself |
| SendTurn.ChatFailure | script.js:665-689 | a chat request raises exactly when the reply is not OK or has no `response` text |
| SendTurn.ReplyText | script.js:506-533 | the bot answer: lookup text for commands, the reply for chat, else the chosen error message |
| SendTurn.RunHiddenMeans | script.js:929-936 | the trace's `hidden` flag means every bot message was added while the indicator was hidden |
| SendTurn.RunAppendedMeans | script.js:785 | the messages a trace adds are exactly those of its append events |
| SendTurn.RunErrorsMeans | script.js:529 | the errors counted are the console-error events |
| SendTurn.RunTypingMeans | script.js:929-936 | the indicator shows afterwards exactly when it was last shown and not hidden since |
| SendTurn.RunConcat | script.js:481-537 | running two event lists in a row is running their concatenation |
| SendTurn.UploadAllTrace | script.js:554-647 | the uploads add one reply per file the loop reaches, in staged order, speak and log nothing, and leave the indicator hidden if any file was reached |
| SendTurn.ReplyTrace | script.js:506-533 | after the request: one bot message, spoken only for a chat success with speech on, one error logged only for a failed chat |
| SendTurn.MessageTrace | script.js:492-533 | a sent message adds itself and then exactly one bot message, hiding the indicator before the answer |
| SendTurn.Turn | script.js:481-537 | blank input with nothing staged does nothing; a selector error keeps the input and every staged file; otherwise the staged list empties and a sent input is cleared; the session's messages and indicator are those of the events |
| SendTurn.TurnTrace | script.js:481-537 | the whole turn: the replies of the uploads the loop reaches, in staged order, then, unless it aborted, the trimmed message and one answer; speech and errors only as above |
| SendTurn.TurnMessages | script.js:481-537 | the messages a turn adds, in order, with the message and its answer only when the uploads did not abort |
| SendTurn.SelectorErrorStopsSend | script.js:554-558 | a selector error ends the send: the message is not sent, the input is kept, all files stay staged, and fewer replies than staged files are added |
| SendTurn.QuotedNameStopsSend | script.js:556 | a staged text file named `my "notes".txt` is accepted, yet a send with it does nothing at all |
| SendTurn.TurnCorrected | script.js:554-647 | with the lookup inside the `try`, every staged file gets its reply in staged order, a non-blank message is sent and answered, and input and staged list are emptied |
| SendTurn.DefaultSettingsSpeakNothing | script.js:523-525 | with speech left at its default, a whole turn speaks nothing |
| SendTurn.TurnHidesIndicator | script.js:506-533 | every bot message of a turn is added with the indicator hidden, and a turn that did anything ends with it hidden |
| Json.LenAgreesWithTruthy | run_chatbot.py:84-86 | for values with a length, truthiness is a non-zero length |
| Json.GetText | run_chatbot.py:204-205 | a field read with a text default is text exactly when present as a string or absent |
| FileContext.LookupFinds | run_chatbot.py:215 | a name reads back an entry exactly when it was stored |
| FileContext.StoreLookup | run_chatbot.py:215-221 | storing makes the name read back the new entry and leaves every other name alone |
| FileContext.StoreNames | run_chatbot.py:215 | dictionary order: a re-used name keeps its place and a new name goes last |
| FileContext.StoreUnique | run_chatbot.py:215 | no two entries ever share a name |
| FileContext.Excerpt | run_chatbot.py:702-706 | raw text is shown only when non-empty and under 5000 characters, cut to 2000 characters plus `...` when longer |
| FileContext.BlocksAppend | run_chatbot.py:698 | one block per file, in dictionary order |
| FileContext.ReuploadKeepsPlace | run_chatbot.py:698-706 | re-uploading a name changes only that file's block, in place |
| FileContext.Prompt | run_chatbot.py:693-709 | without stored files the question goes out unchanged |
| FileContext.PromptFrame | run_chatbot.py:697-709 | with stored files the prompt opens with the context header and ends with `User Question: ` and the question |
| FileContext.PromptDeterminesMessage | run_chatbot.py:709 | the question can be read back from the prompt |
| UploadSummary.BranchOf | run_chatbot.py:270-406 | each branch is taken exactly when its test passes and no earlier one does: text, image, PDF, Word, Excel, else the generic branch; Word and Excel note the `x` suffix |
| UploadSummary.UpperCasePdfIsGeneric | run_chatbot.py:270-406 | the server's extension tests are case-sensitive, so `REPORT.PDF` gets the generic summary |
| UploadSummary.UpperCaseNameIsGeneric | run_chatbot.py:270-406 | a name ending in a capital letter with a type that is neither text nor image always gets the generic summary |
| UploadSummary.TextExtensionBeforeImageType | run_chatbot.py:270-336 | the text test comes first, so `notes.md` typed as an image is read as text |
| UploadSummary.ShowIsFaithful | run_chatbot.py:301-305 | a listing shows the first items up to its limit, in order, with `...` exactly when some are left out |
| UploadSummary.ItemName | run_chatbot.py:303-305 | a class or function name shown never holds a parenthesis |
| UploadSummary.Python | run_chatbot.py:293-306 | the total line count is the number of line breaks plus one |
| UploadSummary.PythonCounts | run_chatbot.py:295-305 | functions, classes and imports are the stripped lines starting with `def `, `class `, `import ` or `from `, whatever the indentation |
| UploadSummary.PythonNamesHaveNoParens | run_chatbot.py:303-305 | the class and function names shown carry no parameter list |
| UploadSummary.CsvCounts | run_chatbot.py:322-328 | the columns are the comma-separated cells of the first line, which join back into it; the row count is the number of line breaks |
| UploadSummary.AnalysisOf | run_chatbot.py:293-322 | the Python analysis for `.py`, the JSON one for `.json`, else the CSV one for `.csv` |
| UploadSummary.Summarize | run_chatbot.py:262-436 | an undecodable payload gives the error summary; a decodable one gets a text summary exactly on the text branch |
| UploadSummary.PreviewIsPrefix | run_chatbot.py:287-332 | the preview is the first 3000 characters of the stripped text, and the note appears exactly when it is cut |
| UploadSummary.RawContent | run_chatbot.py:234-260 | a text file keeps its decoded text unstripped; any other file keeps a line naming it |
| UploadSummary.PreviewComesFromRaw | run_chatbot.py:240-243 | the preview is the start of the stripped raw text that later prompts show |
| UploadSummary.BinaryDescriptionIsShown | run_chatbot.py:703-706 | a binary file's description line is shown as its content in prompts, not the withheld marker |
| Router.RouteOf | run_chatbot.py:52-71 | a routed path is that handler's own path |
| Router.RouteRoundTrip | run_chatbot.py:52-71 | each handler is reached by its own path, so no test shadows another |
| Router.RouteServesExactlyHandlerPaths | run_chatbot.py:52-71 | exactly the eight handler paths are served; anything else is the 404 |
| Router.ClientEndpointsRouted | script.js:575-732 | each request of a send reaches the handler meant for it |
| Router.ConversationPathsRouted | script.js:1039-1132 | the four conversation requests are all served |
| Router.AnswerTextMeans | run_chatbot.py:754-773 | the answer is the model's own text exactly when it sent some; every other ending is a text marked with the cross |
| Router.HandleChat | run_chatbot.py:73-97 | the corrected handler: a truthy clear flag empties the context; an empty message is refused with 400 |
| Router.HandleChatAsWritten | run_chatbot.py:81-90 | the handler as written: an empty message is refused before the clear flag is read, so the context stays |
| Router.ChatOrdersAgree | run_chatbot.py:81-90 | the two orders differ only for a clear request without a message |
| Router.ChatAsksWithPrompt | run_chatbot.py:693-709 | a text message is asked with the prompt built from the context left after any clear |
| Router.HandleUpload | run_chatbot.py:192-232 | an empty `fileData` is refused with 400; only a successful upload changes the context, and names stay unique |
| Router.UploadStores | run_chatbot.py:203-221 | an upload stores the declared type and raw text under the file name, leaves the other names alone, and keeps the name order |
| Router.UnnamedUploadsShareAPlace | run_chatbot.py:204-215 | uploads without a name are all stored as `unknown` |
| Router.PassOn | run_chatbot.py:565-687 | listing ignores the body; a body that cannot be read gets the handler's error prefix |
| Router.Serve | run_chatbot.py:52-71 | `do_POST` with its handlers as written: an unknown path is a 404 with the context unchanged; only chat and upload touch the context; names stay unique |
| Router.ServeCorrected | run_chatbot.py:52-71 | the same server with the corrected chat handler: a chat request with a truthy clear flag empties the context; every other path is served as written |
| Router.GuardsRefuseFalsyFields | run_chatbot.py:84-86 | each guarded handler answers 400 exactly when its field is missing or falsy |
| Router.ErrorsCarryPrefix | run_chatbot.py:96-97 | a body that cannot be read gives a 500 whose text starts with the handler's prefix |
| Router.ListIgnoresBody | run_chatbot.py:628-659 | the list request is served the same whatever its body |
| Router.ClearAsWrittenIsNotFound | script.js:964-973 | the clear button's request goes to an unserved path: 404, context kept |
| Router.ClearRefusedAsWritten | run_chatbot.py:84-90 | even at `/chat`, the handler as written refuses the clear request and keeps the context |
| Router.ClearEmptiesContext | script.js:964-973 | with both corrections the clear button empties the context, so the next prompt is the bare question |
| ConversationList.RowOf | run_chatbot.py:636-648 | a file is skipped exactly when it cannot be read or its `messages` has no length; the row is named after the file |
| ConversationList.RowDefaults | run_chatbot.py:640-645 | without the optional keys a row is named after the file, with an empty date and no messages |
| ConversationList.RowsMembers | run_chatbot.py:635-648 | a row is listed exactly when some scanned file yields it |
| ConversationList.SortPermutes | run_chatbot.py:651 | sorting keeps every row, each as often as before |
| ConversationList.SortSorted | run_chatbot.py:651 | the sorted rows are newest first by the `created` text |
| ConversationList.SortStable | run_chatbot.py:651 | rows with the same date keep their scan order |
| ConversationList.List | run_chatbot.py:628-659 | the listing has one row per readable file, or fails to sort when two or more rows have a date that is not text |
| ConversationList.ListIsSortedRows | run_chatbot.py:635-651 | with text dates the listing is the readable rows, each once, newest first, ties in scan order |
| Text.JoinSplit | run_chatbot.py:322-325 | splitting on a character and joining back gives the text |
| Text.ParseNatToString | run_chatbot.py:306 | the decimal form of a count reads back as the count |
| Text.TrimIdempotent | run_chatbot.py:287-288 | trimming twice is trimming once |
| Text.LexLeTotal | run_chatbot.py:651 | any two dates are ordered one way or the other |
| Text.LexLeTransitive | run_chatbot.py:651 | the date order is transitive |
| Text.LexLeAntisymmetric | run_chatbot.py:651 | two dates ordered both ways are equal |

## Left out

- The DOM, toasts, scrolling, the textarea, timers and the entrance animation: presentation only.
- `fetch`, `FileReader`, base64, `localStorage`, the Gemini, search and Wikipedia HTTP calls, and the conversations directory: each is an input of the model or a value passed on.
- Speech recognition and synthesis: the model records a speak event and nothing more.
- `formatFileSize`, `format_file_size` and clock or locale texts: they use floating point, the clock or the locale.
- How search and Wikipedia results are rendered: a successful lookup contributes its already-rendered text.
- The exact wording and emoji of the server's upload summaries. `UploadSummary.Summary` keeps the facts each branch reports.
- The sniffing of the first bytes: the PDF version and the generic branch's format guesses.
- The JSON-file analysis. JSON text is not parsed, so `JsonAnalysis` only marks the branch.
- The body of `handle_save_conversation`, `handle_load_conversation` and `handle_delete_conversation` after their checks: files are not modelled, so there is no 404 for a missing conversation.
- The timestamp default of a saved conversation's name: it depends on the clock.
- A request body that is JSON but not an object. It is treated like one that cannot be read, which is how the handlers fail on it.
- Router.HandleUpload: an upload whose `fileName` or `fileType` is not a JSON string answers `Unmodelled` and leaves the context unchanged. Python instead stores an entry under the `fileName` value and answers 200, because `process_uploaded_file` and `extract_raw_content` each catch their own failure (the summary and raw text are then mostly their error texts). Only an array or object `fileName`, which cannot be a dictionary key, fails the store and gets 500 `Upload error: …`. The model's context holds text names and types only.
- SendTurn.Reached: which file names the browser's selector parser rejects is not modelled; the rejection is the input outcome `SelectorError`. A name with a `"` in it, such as `my "notes".txt`, is one such name.
- SendTurn.SelectorErrorStopsSend: the uncaught rejection that ends the send is reported by the browser, not by the page, so it is not a `LogError` event.
- SendTurn.UploadEvents: when an upload reply's JSON cannot be read, the `catch` hides the indicator a second time. The model records one hide, which has the same effect.
- Router.QuestionOf: a chat message that is truthy but not a string is asked as `NonText`, and what reaches the model is not modelled.
- ConversationList.List: any `created` value that is not text, with two or more rows, gives `KeysNotText`, including numbers, which Python would order.
- SendTurn.Turn: a turn is atomic and empties the staged list at once. The source clears it on a three-second timer (script.js:650-653). That timer also clears files staged in the meantime. The Enter key (script.js:173-178) can start a second turn within the window, and that turn uploads the old files again.
- Text.ToLower maps only A-Z and the Kelvin sign. This is exact for the suffix tests against the lower-case extension list, but it is not a general lower-casing.
- ClientSettings.LoadSettings: the saved record is already parsed. Saved text that is not an object is not modelled.
- `ConnectionStatus`, the conversation panels and message editing: user-interface wiring.

## Findings

| source | as written | input that shows it | evidently intended | confidence | as-written member | corrected member |
|---|---|---|---|---|---|---|
| script.js:964 | the clear button posts to `/api/chat`, a path `do_POST` does not serve | any press of the clear button | post to `/chat`, the path every other chat request uses | not executed | Router.ClearAsWrittenIsNotFound | Router.ClearEmptiesContext |
| script.js:556 | the preview lookup `[data-filename="<name>"]` runs before the `try`, so a name the selector parser rejects throws out of `handleFileUploads` and `handleSendMessage`: later files are not uploaded, the message is not sent, and input and staged list stay | a staged file `my "notes".txt` and a message | the lookup inside the `try`, after the indicator is shown, so the failure is reported for that file like a failed read and the send goes on | not executed | SendTurn.SelectorErrorStopsSend | SendTurn.TurnCorrected |
| run_chatbot.py:84-90 | an empty message is refused before `clear_context` is read, so a clear request without a message never clears | body `{message: "", clear_context: true}` at `/chat` | a truthy clear flag empties the context even without a message, as the clear button expects | not executed | Router.HandleChatAsWritten | Router.HandleChat |
