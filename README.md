# Apply-all-safe-suggestions core of the P42 VS Code extension, in Dafny

This project models the part of the P42 JavaScript-assistant extension that applies every
"safe" code-assist suggestion to a set of files, together with the small pieces around it:

- **The apply command** (`createApplyAllSafeSuggestionsCommand`). It resolves the URIs the
  command was invoked on, expands them into target files, and runs one session per target
  until cancellation. It then writes a cancellation notice or a summary.
  - `ApplyAllSafeSuggestions` holds the batch and the command.
  - `ApplySession.DocumentSession` holds the per-document session
    (`applySafeSuggestionsForDocument`). It is a class whose fields are the session's
    closure variables: `appliedCount`, `finished`, `isApplying`, and the two disposables.
  - `SuggestionSelection` chooses the next suggestion: the safe ones, stably sorted by line,
    and the first of them.
- **`collectScanTargetUris`** (`CollectScanTargetUris`). It turns files and folders into a
  de-duplicated list of files with a supported extension. The `Map` it fills in place is
  kept as its keys in insertion order plus a `map`. Cancellation is polled before each
  input and before each file. A failing input is logged and skipped.
- **`findFilesInFolder`** (`FindFilesInFolder`): the `**/*.{...}` include pattern and the
  `findFiles` call made with it.
- **`DocumentWatcher`** (`DocumentWatching.DocumentWatcher`). It holds the current document,
  treats setting the same document as a no-op, and filters update notifications by URI.
- **The `tsconfig.json` generator** (`TsconfigJson`): the code-assist path entries built by a
  `+=` loop, and the fixed text around them.
- **`countCodePoints`** (`CodePoints`). Only its test cases are available. It is modelled over
  UTF-16 code units, where a valid surrogate pair counts as one code point.

**How async code is modelled.** Each `async` function is cut at its `await`s into atomic
steps. Nothing else runs between two awaits.

- The value an awaited host call resolves with is an input of the step that follows it.
- The cancellation token is polled, never pushed, so each poll is an input too. It is
  indexed by the number of awaits completed before it:
  - in `collectScanTargetUris`, `cancelled[i]` is the value once `i` inputs were resolved;
  - in the batch, `cancelledAfter(k)` is the value once `k` sessions resolved.
- Host effects are recorded as data: log records (`Host.LogRecord`), progress messages and
  host calls.

Shared pieces:
- `Text`: ASCII case mapping, `lastIndexOf`, decimal formatting, lines.
- `Sequences`: de-duplication in first-occurrence order (`new Set`, `Map` keys).

## Model

| member | source | states |
|---|---|---|
| `ApplyAllSafeSuggestions.ResolveUris` | packages/app-vscode-extension/src/command/createApplyAllSafeSuggestionsCommand.ts:19-31 | The resolved list is empty exactly when there is no argument and no active editor, or the argument is an empty array. Every resolved URI is the active editor's document (no argument), the given URI, or an element of the given array. |
| `ApplyAllSafeSuggestions.ApplyAllSafeSuggestions` | packages/app-vscode-extension/src/command/createApplyAllSafeSuggestionsCommand.ts:16-101 | An empty selection writes only "No file selected…" and shows nothing. Otherwise the output is shown and "Collecting files…" is reported. The scan's error records come first. Then one of three follows: the cancellation notice if the token is cancelled after the scan; "No supported files found…" if there are no targets; or the batch's progress and closing record over exactly the collected targets. |
| `ApplyAllSafeSuggestions.RunBatch` | packages/app-vscode-extension/src/command/createApplyAllSafeSuggestionsCommand.ts:64-98 | Sessions run for the targets in order, up to the first cancelled poll (`Processed`). Progress `(k/n)` is reported for each of them. `appliedTotal` is the sum of their results. The closing record is `BatchLog`. |
| `ApplyAllSafeSuggestions.ProcessedFrom` | packages/app-vscode-extension/src/command/createApplyAllSafeSuggestionsCommand.ts:67-70 | The loop stops at a count that never exceeds the number of targets. No poll before that count reports cancellation. Stopping early means the poll at the stopping point does. |
| `ApplyAllSafeSuggestions.BatchLogSpec` | packages/app-vscode-extension/src/command/createApplyAllSafeSuggestionsCommand.ts:87-98 | The batch ends with the cancellation notice exactly when the token is cancelled after the last session that ran. Otherwise every target was processed. The summary, counting all targets and all applied suggestions, is written exactly when there are more than one. With one target nothing is written. |
| `ApplyAllSafeSuggestions.BatchLogTwoTargets` | packages/app-vscode-extension/src/command/createApplyAllSafeSuggestionsCommand.ts:64-98 | Two targets, never cancelled, whose sessions applied 2 and 0 suggestions end with the single record "Applied 2 safe suggestions across 2 files.". |
| `ApplyAllSafeSuggestions.SummaryMessageDeterminesCounts` | packages/app-vscode-extension/src/command/createApplyAllSafeSuggestionsCommand.ts:92-97 | The summary text determines both counts: two summaries are equal only for the same total and the same number of files, whatever the pluralisation. |
| `ApplyAllSafeSuggestions.ProgressMessageDeterminesCounts` | packages/app-vscode-extension/src/command/createApplyAllSafeSuggestionsCommand.ts:72-77 | A progress message determines its position and its total. |
| `ApplySession.DocumentSession.constructor` | packages/app-vscode-extension/src/command/createApplyAllSafeSuggestionsCommand.ts:109-231 | A new session logs "Start applying safe suggestions." and runs the first step. If the token is already cancelled, it resolves with 0 after logging the cancellation, with no host call. Otherwise it has requested the document's suggestions and waits for them. |
| `ApplySession.DocumentSession.Finish` | packages/app-vscode-extension/src/command/createApplyAllSafeSuggestionsCommand.ts:130-144 | The first call sets `finished`, disposes both registrations, logs the message only when one is given, and resolves with the current `appliedCount`. Every later call changes nothing. |
| `ApplySession.DocumentSession.Trigger` | packages/app-vscode-extension/src/command/createApplyAllSafeSuggestionsCommand.ts:146-161 | A step does nothing while the session is finished or applying. A cancelled token finishes it with "Cancelled applying safe suggestions." and makes no call. Otherwise it sets `isApplying` and requests the suggestions for the document's URI string. |
| `ApplySession.DocumentSession.OnDocumentUpdated` | packages/app-vscode-extension/src/command/createApplyAllSafeSuggestionsCommand.ts:114-120 | A notification for another URI string, or one after disposal, changes nothing. For this document's URI while registered, it is `applyNextSuggestion()`: nothing while a step runs; a cancelled token finishes the session with the cancellation message and no call; otherwise it sets `isApplying` and requests the suggestions. |
| `ApplySession.DocumentSession.OnCancellationRequested` | packages/app-vscode-extension/src/command/createApplyAllSafeSuggestionsCommand.ts:122-126 | While registered, cancellation finishes the session with the cancellation message. After disposal it changes nothing. `appliedCount`, the phase, `isApplying` and the host calls never change. |
| `ApplySession.DocumentSession.OnSuggestionsReturned` | packages/app-vscode-extension/src/command/createApplyAllSafeSuggestionsCommand.ts:159-187 | A finished session only ends the step: it stays finished, keeps its resolved count, and logs and calls nothing. No list, or no safe suggestion, finishes with "Finished applying safe suggestions." and applies nothing. Otherwise it shows the document and remembers the suggestion `NextSafeSuggestion` picks. |
| `ApplySession.DocumentSession.OnDocumentShown` | packages/app-vscode-extension/src/command/createApplyAllSafeSuggestionsCommand.ts:185-201 | A finished session only ends the step: it stays finished, keeps its resolved count, and logs and calls nothing. A cancelled token finishes with the cancellation message and triggers no apply. Otherwise it runs the apply command with the chosen suggestion's id and the source "applyAllSafeSuggestions". |
| `ApplySession.DocumentSession.OnApplyReturned` | packages/app-vscode-extension/src/command/createApplyAllSafeSuggestionsCommand.ts:198-222 | `appliedCount` rises by exactly one, and `Line <line>: <label>` is logged, only if the session is still unfinished. Once finished, the count and the log stay as they are. The step ends with `isApplying` false. |
| `ApplySession.DocumentSession.OnStepFailed` | packages/app-vscode-extension/src/command/createApplyAllSafeSuggestionsCommand.ts:213-222 | A rejected host call logs "Applying suggestions failed" with the path, even after the session finished. It then finishes without a message and ends the step with `isApplying` false. |
| `SuggestionSelection.SafeSuggestions` | packages/app-vscode-extension/src/command/createApplyAllSafeSuggestionsCommand.ts:167-168 | The filtered list holds exactly the `SAFE` suggestions of the list and is no longer than it. |
| `SuggestionSelection.SortByLine` | packages/app-vscode-extension/src/command/createApplyAllSafeSuggestionsCommand.ts:175-178 | The sort keeps the length and is a permutation (same multiset). |
| `SuggestionSelection.SortByLineSorted` | packages/app-vscode-extension/src/command/createApplyAllSafeSuggestionsCommand.ts:175-178 | The sorted list is ordered by `suggestionLine`. |
| `SuggestionSelection.NextSafeSuggestionSpec` | packages/app-vscode-extension/src/command/createApplyAllSafeSuggestionsCommand.ts:167-183 | Nothing is chosen exactly when there is no list or it holds no safe suggestion. Otherwise the chosen suggestion is safe and has the smallest line of the safe ones. On a tie it is the earliest in the returned list. |
| `CollectScanTargetUris.HasSupportedExtensionSpec` | packages/app-vscode-extension/src/util/scan/collectScanTargetUris.ts:63-75 | A path without `.` never has a supported extension. Otherwise it has one exactly when the lower-cased text after the last `.` of the whole path is in the set. |
| `CollectScanTargetUris.HasSupportedExtensionIgnoresCase` | packages/app-vscode-extension/src/util/scan/collectScanTargetUris.ts:25-27 | Two paths equal up to case give the same answer, and a path whose text after its last `.` equals a supported extension up to case is accepted. |
| `CollectScanTargetUris.CaseVariantsMembers` | packages/app-vscode-extension/src/util/scan/collectScanTargetUris.ts:19-22 | The `flatMap` holds exactly the extensions and their upper-case forms. |
| `CollectScanTargetUris.GlobExtensionsSpec` | packages/app-vscode-extension/src/util/scan/collectScanTargetUris.ts:17-24 | The folder-search list holds each supported extension and its upper-case form, nothing else, and no duplicates. |
| `CollectScanTargetUris.FilesOf` | packages/app-vscode-extension/src/util/scan/collectScanTargetUris.ts:36-42 | A non-directory input contributes itself exactly when it has a supported extension. A folder contributes the files its search found. A failing input contributes nothing. |
| `CollectScanTargetUris.LastByKeySpec` | packages/app-vscode-extension/src/util/scan/collectScanTargetUris.ts:49 | After the `set`s, the map has a key for each string form set and no other. Each key maps to a URI of that form that was set. |
| `CollectScanTargetUris.CollectedKeys` | packages/app-vscode-extension/src/util/scan/collectScanTargetUris.ts:28-60 | The result's string forms are those of the stream, de-duplicated in first-insertion order. |
| `CollectScanTargetUris.CollectedIsDuplicateFree` | packages/app-vscode-extension/src/util/scan/collectScanTargetUris.ts:49-60 | No two result URIs share a string form. |
| `CollectScanTargetUris.CollectedCoversStream` | packages/app-vscode-extension/src/util/scan/collectScanTargetUris.ts:49-60 | Every URI set is represented by a result URI with its string form, and every result URI was set. |
| `CollectScanTargetUris.CollectedOrderIsStable` | packages/app-vscode-extension/src/util/scan/collectScanTargetUris.ts:49-60 | Setting more URIs never moves an entry: the earlier order is a prefix of the later one. |
| `CollectScanTargetUris.CollectedFolderThenSameFile` | packages/app-vscode-extension/src/util/scan/collectScanTargetUris.ts:44-50 | A folder listing `x, y` followed by `x` again gives `x, y`. |
| `CollectScanTargetUris.CancelledStreamIsPrefix` | packages/app-vscode-extension/src/util/scan/collectScanTargetUris.ts:30-47 | The files a cancelled scan sets are a prefix of those a scan without a token sets. |
| `CollectScanTargetUris.CancelledResultIsPrefix` | packages/app-vscode-extension/src/util/scan/collectScanTargetUris.ts:30-60 | The result of a cancelled scan lists a prefix, in the same order, of the string forms the uncancelled result lists. |
| `CollectScanTargetUris.SetFiles` | packages/app-vscode-extension/src/util/scan/collectScanTargetUris.ts:44-50 | The inner loop sets every file of the input, unless the token is cancelled at that point, when it sets none. The key order and the map become those of the longer stream. |
| `CollectScanTargetUris.ResolveTarget` | packages/app-vscode-extension/src/util/scan/collectScanTargetUris.ts:35-57 | One input yields the files of `FilesOf`. A folder starts exactly one search. A failing input writes exactly one error record with its URI string. |
| `CollectScanTargetUris.HandleInput` | packages/app-vscode-extension/src/util/scan/collectScanTargetUris.ts:30-57 | One turn of the loop extends the scan state for `i` inputs to that for `i + 1` inputs. |
| `CollectScanTargetUris.ScanInputs` | packages/app-vscode-extension/src/util/scan/collectScanTargetUris.ts:30-58 | The loop handles inputs up to the first cancelled poll, and its state is the scan state for that many inputs. |
| `CollectScanTargetUris.CollectScanTargetUris` | packages/app-vscode-extension/src/util/scan/collectScanTargetUris.ts:7-61 | The targets are the de-duplicated stream of discovered files of the inputs reached before cancellation. The searches are one per folder reached. The errors are one per failing input reached. |
| `FindFilesInFolder.GlobPattern` | packages/app-vscode-extension/src/util/fs/findFilesInFolder.ts:12-15 | The pattern is `**/*` exactly for an empty list. Otherwise it has the form `**/*.{…}`. |
| `FindFilesInFolder.GlobPatternRoundTrip` | packages/app-vscode-extension/src/util/fs/findFilesInFolder.ts:15 | For extensions without a comma, the list can be read back from the pattern: every extension, in order, with repeats kept. |
| `FindFilesInFolder.FindFiles` | packages/app-vscode-extension/src/util/fs/findFilesInFolder.ts:17-27 | The search is relative to the folder with that pattern. It passes no exclude and no result cap, and forwards the token unchanged. |
| `TsconfigJson.GenerateCodeAssistEntries` | codegen/src/generateTsconfigJson.mjs:4-11 | The `+=` loop builds `Entries(ids)`. |
| `TsconfigJson.EntriesAreLines` | codegen/src/generateTsconfigJson.mjs:5-10 | The entries text is the entry line of each id in order, each ended by a newline. |
| `TsconfigJson.EntriesLines` | codegen/src/generateTsconfigJson.mjs:5-10 | For ids without newlines: no ids give the empty text, the text is newline-terminated, and it splits back into exactly one entry line per id, in order. |
| `TsconfigJson.GenerateTsconfigJson` | codegen/src/generateTsconfigJson.mjs:13-31 | The generator writes `TsconfigText(ids)` to the given file name. |
| `TsconfigJson.TsconfigLines` | codegen/src/generateTsconfigJson.mjs:15-30 | The file is, line by line: the fixed header, one entry line per id, then the three fixed entries and the closing braces. |
| `CodePoints.CountCodePoints` | packages/engine/src/util/text/countCodePoints.test.ts:10-14 | Each code point takes one or two code units. |
| `CodePoints.CountWithoutSurrogates` | packages/engine/src/util/text/countCodePoints.test.ts:10-11 | Text without surrogates has one code point per code unit. |
| `CodePoints.CountEncoded` | packages/engine/src/util/text/countCodePoints.test.ts:12-14 | Counting the UTF-16 encoding of a sequence of scalar values gives its length. |
| `CodePoints.CountOneDigit` | packages/engine/src/util/text/countCodePoints.test.ts:10 | `"1"` has 1 code point. |
| `CodePoints.CountTwoDigits` | packages/engine/src/util/text/countCodePoints.test.ts:11 | `"22"` has 2 code points. |
| `CodePoints.CountFourEmoji` | packages/engine/src/util/text/countCodePoints.test.ts:12 | Four U+1F62F, encoded as surrogate pairs, are 4 code points. |
| `CodePoints.CountFourAstralIdeographs` | packages/engine/src/util/text/countCodePoints.test.ts:13 | Four U+20BB7, encoded as surrogate pairs, are 4 code points. |
| `CodePoints.CountFlag` | packages/engine/src/util/text/countCodePoints.test.ts:14 | The Canadian flag, two regional indicators, is 2 code points. |
| `DocumentWatching.DocumentWatcher.constructor` | packages/app-vscode-extension/src/content/DocumentWatcher.ts:10-19 | A new watcher has neither a URI nor its string, and has fired nothing. |
| `DocumentWatching.DocumentWatcher.GetDocumentUri` | packages/app-vscode-extension/src/content/DocumentWatcher.ts:21-23 | Returns the stored URI. |
| `DocumentWatching.DocumentWatcher.SetDocumentUri` | packages/app-vscode-extension/src/content/DocumentWatcher.ts:25-34 | A URI with the current string form, or `undefined` when none is set, changes nothing and fires nothing. Any other value is stored with its string and fires exactly one event. |
| `DocumentWatching.SetDocumentUriIdempotent` | packages/app-vscode-extension/src/content/DocumentWatcher.ts:25-34 | Setting the same document twice fires at most one event. It fires none exactly when the document was already current. |
| `DocumentWatching.DocumentWatcher.OnDocumentUpdated` | packages/app-vscode-extension/src/content/DocumentWatcher.ts:13-19 | A notification fires one event exactly when its URI equals the stored string. It never fires while no document is set, and changes no field. |
| `DocumentWatching.DocumentWatcher.WithDocumentUri` | packages/app-vscode-extension/src/content/DocumentWatcher.ts:59-64 | Without a document, the result is `undefined` and the callback does not run. Otherwise the callback's result on the current string is returned. |
| `DocumentWatching.DocumentWatcher.RequestFunctionElements` | packages/app-vscode-extension/src/content/DocumentWatcher.ts:36-40 | The function-elements request is made, for the current string, exactly when a document is set. |
| `DocumentWatching.DocumentWatcher.RequestSuggestions` | packages/app-vscode-extension/src/content/DocumentWatcher.ts:42-48 | The suggestions request is made, for the current string, exactly when a document is set. |
| `DocumentWatching.DocumentWatcher.RequestCodeAssistDiff` | packages/app-vscode-extension/src/content/DocumentWatcher.ts:50-57 | The diff request is made, for the current string with the given id and context lines, exactly when a document is set. |

## Left out

- Host APIs are inputs, not code:
  - `isDirectory`, `workspace.findFiles`, `languageServer.getSuggestions`, `showTextDocument` and `executeCodeAssistCommand` are not run;
  - their outcomes are inputs (`Resolution`, the arguments of `OnSuggestionsReturned`, `OnStepFailed`);
  - `FileTypes.getAllSupportedFileExtensions()` is the `supportedExtensions` parameter;
  - `workspace.asRelativePath` is the session's `path` parameter.
- The batch does not run sessions. Each session's result is the input `sessionResult`. The session itself is `ApplySession.DocumentSession`, whose steps are driven by the host's events, not by a loop.
- Case mapping: `toLowerCase`/`toUpperCase` are modelled on ASCII letters only. Other characters are left unchanged.
- The progress `increment` (`100 / targetUris.length`) is a floating-point value and is not modelled. Only the progress messages are.
- `logger.showOutput()` is modelled as a flag. The output channel's formatting, and the `error` object attached to error records, are not modelled.
- The title, location and cancellability options of `withProgress` are not modelled.
- The `{ preview: false }` option passed to `showTextDocument` is not modelled: `ShowTextDocument` records only the URI.
- `getSuggestions` of the language-server facade catches its own errors and returns `undefined`, so the model treats that await as never rejecting. The facade's own error log entry is not part of this model.
- In `DocumentWatcher`, firing `onSuggestionChange` is counted, not delivered to listeners.
- The callbacks of `getFunctionElements`, `getSuggestions` and `getCodeAssistDiff` are represented by the request they would make. What the language server answers is not modelled.
- `generateTsconfigJson`'s `console.log` is not modelled. The `fs.writeFileSync` call is returned as a value (`FileWrite`), not performed.
- `countCodePoints` itself is not part of this model; only its test cases are. The count is defined over UTF-16 code units: a high surrogate followed by a low surrogate counts once, and any other unit counts once. This matches the test inputs; lone surrogates do not occur in them.
- The cancellation check right after `await collectScanTargetUris(...)` reads the value the scan saw last. The model assumes no cancellation arrives while the returned promise settles.
- A session whose `getSuggestions` step is still pending when the session is cancelled is modelled: the later steps see `finished` and end. Interleavings in which two sessions run at once do not arise, because the batch awaits each session.
