# Elementa journal: entry store, recording sessions and element catalog

A Dafny model of the stateful core of the Elementa journal, a browser app where a user writes
or dictates short entries filed under one of five elements (earth, water, fire, air, spirit).
The model has four parts:

- **Entry store** (`EntryStore`, entry_store.dfy). `saveEntry`, `loadEntries`, `deleteEntry`
  and `moveEntryToFolder` keep every entry as one list under the local-storage key
  "elementa_entries". Each one reads the whole list, changes it and writes it back. The two
  `messenger.js` files hold the same four functions line for line, so one model covers both.
  The key is the field `stored` of the class `Journal`. It holds `Absent`, `Corrupt` (text that
  does not parse as a list of entries) or `Entries(list)`. A write may fail (quota exceeded,
  storage disabled); the model leaves that choice unresolved.
- **Speech-to-text session** (`SpeechSession`, speech_session.dfy). This is the process-wide
  session of Elementa/src/lib/infra/messenger.js. It is the class `Session`, with the module's
  variables as fields. The recognizer's `onresult`, `onerror` and `onend` events are the methods
  `OnResult`, `OnError` and `OnEnd`. Browser support, `navigator.onLine` and whether `start()`
  throws are parameters. The callback's calls are recorded in the field `updates`.
- **Audio-capture session** (`AudioSession`, audio_session.dfy). This is the `MediaRecorder`
  session of client/js/infra/messenger.js. It is the class `Capture`, and the recorder's
  `ondataavailable`, `onstop` and `onerror` events are methods. The parameters are:
  - the browser capabilities;
  - codec support;
  - the step at which starting fails, with the `DOMException` it fails with.
- **Element catalog** (`Catalog`, catalog.dfy). These are the pure tables and lookups of
  client/js/core/pure.js: prompts, colours, details and the element list, plus `createEntry`.
  Each table is a function of the `Element` that a valid tag names. `Math.random()`,
  `Date.now()` and `new Date().toISOString()` are parameters.

common.dfy holds the shared `Entry` record, `Option` and `Outcome`. `Outcome` stands for a
promise that resolves (`Done`) or rejects with an error message (`Failed`). js_text.dfy models
`String.prototype.trim`, which `stopRecording` applies to the transcript.

Proved properties:
- The store's sort is a stable sort by descending id. A saved list is the old list plus the new
  entry, sorted, with the new entry ahead of older entries that have the same id.
- A load is always sorted. It is empty when the key is missing or corrupt, and loading again
  gives the same list.
- Delete removes exactly the entries with the given id. Move changes only the folder of the
  first entry with that id, and when no entry has the id it writes nothing.
- The speech session's cursor commits each final result exactly once, including when the
  recognizer re-sends a growing result list. Interim text never reaches the transcript.
- The session invariants hold across every event, and neither a critical error nor a user's
  stop is followed by a restart.
- Missing media devices or a missing recorder API reject with their fixed texts before anything
  changes. Each failure after those checks yields the message of its error class and releases
  the stream the session holds. Only non-empty chunks are kept. A stream still open from a stopped session
  whose stop event has not arrived is overwritten by the next start and leaks; the model counts
  such streams.
- The catalog's lookups are defined exactly on the five tags. A random prompt is always one of
  the element's four prompts.
- Saves with fresh ids, deletes and moves keep the stored ids distinct, and a list without
  repeated ids loads strictly newest first.

## Model

| member | source | states |
|---|---|---|
| `EntryStore.Parsed` | Elementa/src/lib/infra/messenger.js:17-19 | a missing key reads as the empty list; unparsable text (and only that) is a parse failure |
| `EntryStore.Insert` | Elementa/src/lib/infra/messenger.js:21 | defines one step of the stable sort by descending id: the entry goes before the first entry whose id is not larger (its properties: `InsertMultiset`, `InsertSorted`, `InsertWithId`) |
| `EntryStore.SortDesc` | Elementa/src/lib/infra/messenger.js:21 | defines `entries.sort((a, b) => b.id - a.id)` as a stable insertion sort (its properties: `SortDescSpec`; also line 37 and client/js/infra/messenger.js:17, 33) |
| `EntryStore.InsertMultiset` | Elementa/src/lib/infra/messenger.js:20-21 | one insertion step of the sort adds exactly the inserted entry to the list's contents |
| `EntryStore.InsertSorted` | Elementa/src/lib/infra/messenger.js:21 | an insertion step keeps a list sorted by descending id |
| `EntryStore.InsertWithId` | Elementa/src/lib/infra/messenger.js:21 | an insertion step puts the entry ahead of every entry with the same id and keeps the order of those entries |
| `EntryStore.SortDescSpec` | Elementa/src/lib/infra/messenger.js:21 | `sort((a, b) => b.id - a.id)` is a stable sort: the result is descending by id, a permutation of the input, and keeps the relative order of entries with equal ids |
| `EntryStore.SortDescOfSorted` | Elementa/src/lib/infra/messenger.js:37 | sorting a list that is already newest first leaves it unchanged |
| `EntryStore.Loaded` | Elementa/src/lib/infra/messenger.js:32-43 | `loadEntries` returns a list sorted newest first that is a permutation of the stored list; a missing key or unparsable text gives the empty list |
| `EntryStore.ReloadIsStable` | Elementa/src/lib/infra/messenger.js:32-43 | writing back what was loaded and loading again gives the same list |
| `EntryStore.DistinctSortedIsStrict` | Elementa/src/lib/infra/messenger.js:37 | a newest-first list in which no id repeats is strictly descending |
| `EntryStore.LoadDistinctIsStrict` | Elementa/src/lib/infra/messenger.js:32-43 | when no stored id repeats, loading lists the entries strictly descending by id |
| `EntryStore.SaveKeepsDistinct` | Elementa/src/lib/infra/messenger.js:17-22 | saving an entry whose id no stored entry carries keeps the stored ids distinct |
| `EntryStore.LoadKeepsDistinct` | Elementa/src/lib/infra/messenger.js:32-43 | loading a list without repeated ids gives a list without repeated ids |
| `EntryStore.TwoFreshSavesLoadStrictly` | Elementa/src/lib/infra/messenger.js:15-43 | two saves with fresh, different ids into a store without repeated ids load strictly descending by id |
| `EntryStore.Without` | Elementa/src/lib/infra/messenger.js:195 | the filter keeps exactly the entries whose id differs from the given one |
| `EntryStore.WithoutSorted` | Elementa/src/lib/infra/messenger.js:194-195 | filtering a newest-first list keeps it newest first |
| `EntryStore.WithoutAbsent` | Elementa/src/lib/infra/messenger.js:195 | an id no entry has filters nothing out |
| `EntryStore.WithoutCount` | Elementa/src/lib/infra/messenger.js:195 | the filter removes exactly the entries with the id: kept plus removed is the whole list |
| `EntryStore.WithoutWithId` | Elementa/src/lib/infra/messenger.js:195 | filtering never adds an entry carrying a given id |
| `EntryStore.DeleteKeepsDistinct` | Elementa/src/lib/infra/messenger.js:194-196 | deleting keeps the stored ids distinct |
| `EntryStore.FindIndex` | Elementa/src/lib/infra/messenger.js:209 | `findIndex` gives the first position holding the id, or none (the source's -1) exactly when no entry has it |
| `EntryStore.Relocated` | Elementa/src/lib/infra/messenger.js:208-216 | the list move writes: none when the id is absent; otherwise the same list where only the folder of the first entry with the id changes |
| `EntryStore.RelocatedKeepsOrder` | Elementa/src/lib/infra/messenger.js:215 | moving changes no id, so a newest-first list stays newest first |
| `EntryStore.SameIdsSameCounts` | Elementa/src/lib/infra/messenger.js:215 | two lists with the same id at every position carry each id equally often |
| `EntryStore.MoveKeepsDistinct` | Elementa/src/lib/infra/messenger.js:208-216 | moving keeps the stored ids distinct |
| `EntryStore.SavedListSpec` | Elementa/src/lib/infra/messenger.js:17-22 | the list a save writes is sorted newest first and holds the old entries plus the new one; the new entry comes before older entries with the same id |
| `EntryStore.NewestSaveGoesFirst` | Elementa/src/lib/infra/messenger.js:20-21 | saving an entry newer than all stored entries puts it at the head and leaves the rest in place |
| `EntryStore.WithoutInsert` | Elementa/src/lib/infra/messenger.js:195 | filtering out the id of an inserted entry also removes the insertion |
| `EntryStore.DeleteAfterSave` | Elementa/src/lib/infra/messenger.js:192-197 | deleting the id just saved gives what loading before the save gave, minus that id |
| `EntryStore.Journal.constructor` | Elementa/src/lib/infra/messenger.js:18 | the store starts with the given value under the key |
| `EntryStore.Journal.SetItem` | Elementa/src/lib/infra/messenger.js:22 | a write either stores the list or fails and changes nothing |
| `EntryStore.Journal.Load` | Elementa/src/lib/infra/messenger.js:32-43 | `loadEntries` never fails and returns `Loaded` of the stored value: sorted newest first, a permutation of the stored list, empty when missing or corrupt (also client/js/infra/messenger.js:30-39) |
| `EntryStore.Journal.Save` | Elementa/src/lib/infra/messenger.js:15-27 | on corrupt storage it fails and writes nothing; otherwise it writes the sorted list of the new entry followed by the stored entries, or fails on a failed write and leaves the key as it was (also client/js/infra/messenger.js:13-23) |
| `EntryStore.Journal.Delete` | Elementa/src/lib/infra/messenger.js:192-201 | writes the loaded list without the entries that carry the id, where corrupt storage becomes the empty list; a failed write leaves the key as it was (also client/js/infra/messenger.js:165-174) |
| `EntryStore.Journal.MoveToFolder` | Elementa/src/lib/infra/messenger.js:206-221 | an absent id fails and writes nothing; otherwise it writes the loaded list with the folder of the first entry with the id replaced, or fails and leaves the key as it was (also client/js/infra/messenger.js:183-198) |
| `EntryStore.SaveAndMoveScenario` | Elementa/src/lib/infra/messenger.js:15-221 | saving ids 2 then 1 lists id 2 first; moving id 2 to "water" changes its folder and keeps its element |
| `JsText.IsJsSpace` | Elementa/src/lib/infra/messenger.js:170 | defines the characters `trim` removes: ECMAScript white space and line terminators |
| `JsText.TrimStart` | Elementa/src/lib/infra/messenger.js:170 | removes exactly the leading white space: what remains is a suffix that does not start with white space |
| `JsText.TrimEnd` | Elementa/src/lib/infra/messenger.js:170 | removes exactly the trailing white space: what remains is a prefix that does not end with white space |
| `JsText.Trim` | Elementa/src/lib/infra/messenger.js:170 | the trimmed text neither starts nor ends with white space and is no longer than the input |
| `JsText.TrimEmptyIffBlank` | Elementa/src/lib/infra/messenger.js:170-183 | the trimmed transcript is empty exactly when the transcript is all white space, which is when no final callback is made |
| `JsText.TrimIdempotent` | Elementa/src/lib/infra/messenger.js:170 | trimming a trimmed text changes nothing |
| `SpeechSession.Piece` | Elementa/src/lib/infra/messenger.js:89-91 | defines what one result adds to `finalTranscript`: its text and a space when final, nothing otherwise |
| `SpeechSession.Committed` | Elementa/src/lib/infra/messenger.js:87-95 | defines the text the `onresult` loop appends to `finalTranscript` while walking the results from one index to another |
| `SpeechSession.Interim` | Elementa/src/lib/infra/messenger.js:85-95 | defines `interimTranscript`: the texts of the non-final results the loop walks over, in order |
| `SpeechSession.Cursor` | Elementa/src/lib/infra/messenger.js:87-95 | defines `lastProcessedIndex` after the loop: one past the last final result walked over, or where it started (its properties: `CursorSpec`) |
| `SpeechSession.CursorSpec` | Elementa/src/lib/infra/messenger.js:87-95 | the loop's cursor never moves back, passes every final result it walks over, and everything from the cursor on is interim |
| `SpeechSession.InterimOnlyCommitsNothing` | Elementa/src/lib/infra/messenger.js:87-95 | walking over interim results only appends nothing to the transcript |
| `SpeechSession.NoFinalKeepsCursor` | Elementa/src/lib/infra/messenger.js:87-95 | walking over interim results only leaves the cursor where it was |
| `SpeechSession.RedeliveryCommitsNothing` | Elementa/src/lib/infra/messenger.js:84-100 | the same result list delivered again commits nothing more and leaves the cursor in place: no final text is appended twice |
| `SpeechSession.EndsWithSpaceMeaning` | Elementa/src/lib/infra/messenger.js:90 | the transcript-shape predicate means: empty, or the last character is a space |
| `SpeechSession.CommittedEndsWithSpace` | Elementa/src/lib/infra/messenger.js:90 | every text the loop commits is empty or ends with the separating space |
| `SpeechSession.InterimTextNeverCommitted` | Elementa/src/lib/infra/messenger.js:87-95 | interim text never reaches the transcript: two batches that agree on which results are final, and on the final texts, commit the same text and leave the same cursor |
| `SpeechSession.CommittedSplit` | Elementa/src/lib/infra/messenger.js:87-95 | walking from `lo` to `hi` commits the walk to `mid` followed by the walk from `mid` |
| `SpeechSession.CursorSplit` | Elementa/src/lib/infra/messenger.js:87-95 | the cursor of a walk split at `mid` is that of the second half if it met a final result, else that of the first |
| `SpeechSession.CursorLandsOnFinal` | Elementa/src/lib/infra/messenger.js:89-91 | the cursor stops just past the last final result, so walking up to it commits what the whole walk commits |
| `SpeechSession.GrowingResultsCommitOnce` | Elementa/src/lib/infra/messenger.js:84-100 | handling a result list, then its growth with finalised results unchanged, commits each final text once: the same transcript and cursor as handling the grown list alone |
| `SpeechSession.Session.constructor` | Elementa/src/lib/infra/messenger.js:4-10 | the initial state: no recognizer, not recording, empty transcript, cursor 0 |
| `SpeechSession.Session.Start` | Elementa/src/lib/infra/messenger.js:48-153 | while recording it is a no-op that keeps the transcript and cursor; unsupported or offline rejects before any change; otherwise it resets flags, transcript and cursor, and either records or, when `start()` throws, drops the recognizer and rejects |
| `SpeechSession.Session.OnResult` | Elementa/src/lib/infra/messenger.js:84-100 | appends exactly the committed final texts (each followed by a space) from the cursor on, moves the cursor past the last final result, and passes transcript plus interim text to the callback as not final |
| `SpeechSession.Session.OnError` | Elementa/src/lib/infra/messenger.js:102-116 | a critical code sets the error flag, stops recording and drops the recognizer; any other code changes nothing |
| `SpeechSession.Session.OnEnd` | Elementa/src/lib/infra/messenger.js:118-142 | when the user has not stopped, the session is recording, no error occurred and the browser is online, it resets the cursor and keeps recording iff the restart succeeds; otherwise recording stops and the recognizer is dropped |
| `SpeechSession.Session.Stop` | Elementa/src/lib/infra/messenger.js:158-187 | when not recording it returns "" and changes nothing; otherwise it marks the user's stop, ends recording, returns the trimmed transcript and sends it to the callback as final only when non-empty |
| `SpeechSession.Session.IsRecordingActive` | Elementa/src/lib/infra/messenger.js:226 | an active session holds a recognizer, was not stopped by the user and has no error |
| `SpeechSession.Session.CurrentTranscript` | Elementa/src/lib/infra/messenger.js:231 | the transcript so far is empty or ends with a space |
| `SpeechSession.InterimOnlyDelivery` | Elementa/src/lib/infra/messenger.js:84-100 | a list with only an interim "hello" commits nothing, keeps the cursor and shows "hello" as interim |
| `SpeechSession.FinalThenInterimDelivery` | Elementa/src/lib/infra/messenger.js:84-100 | the same list with "hello" now final and "world" interim commits "hello " once and moves the cursor to 1 |
| `SpeechSession.CriticalErrorScenario` | Elementa/src/lib/infra/messenger.js:102-142 | after a critical error the session is inactive, and the end event that follows does not restart it |
| `SpeechSession.StopThenEndScenario` | Elementa/src/lib/infra/messenger.js:127 | the end event that follows a user's stop does not restart the session |
| `AudioSession.StartErrorClass` | client/js/infra/messenger.js:122-130 | the error class by name: permission, no microphone or busy for exactly their two names each, generic otherwise |
| `AudioSession.StartErrorMessage` | client/js/infra/messenger.js:121-130 | the fixed message of each recognised class; the generic prefix followed by the error's own message otherwise |
| `AudioSession.StartErrorMessageIdentifiesClass` | client/js/infra/messenger.js:121-130 | two errors with the same message fall in the same class, and a generic message ends with the error's own message |
| `AudioSession.ChooseMimeType` | client/js/infra/messenger.js:67-75 | "audio/webm" iff supported, else "audio/mp4" iff supported, else the empty type |
| `AudioSession.Joined` | client/js/infra/messenger.js:88 | the recording built from no chunks is empty |
| `AudioSession.JoinedAppend` | client/js/infra/messenger.js:83-88 | pushing a chunk appends its bytes to the recording |
| `AudioSession.JoinedSize` | client/js/infra/messenger.js:82-88 | since only non-empty chunks are kept, the recording has at least as many bytes as there are chunks |
| `AudioSession.Capture.constructor` | client/js/infra/messenger.js:1-4 | the initial state: no recorder, no chunks, no stream, not recording |
| `AudioSession.Capture.Start` | client/js/infra/messenger.js:48-132 | while recording it is a no-op; missing media devices or recorder API reject before any change; otherwise success records with an open stream; a fault at any step releases the stream, stops recording and rejects with its class's message; from constructing the recorder on, the chunks are emptied and the chosen type requested; acquiring a new stream while the previous one is still open leaks the previous one (the leak count grows by one), and a failed acquisition leaks nothing |
| `AudioSession.Capture.OnDataAvailable` | client/js/infra/messenger.js:81-85 | a chunk is appended iff it has data, and the recording grows by its bytes |
| `AudioSession.Capture.OnStop` | client/js/infra/messenger.js:87-98 | builds the recording from the chunks in order, releases the stream and stops recording |
| `AudioSession.Capture.OnError` | client/js/infra/messenger.js:100-107 | releases the stream and stops recording |
| `AudioSession.Capture.Stop` | client/js/infra/messenger.js:139-157 | with no active recording or no recorder it changes nothing; otherwise recording is off afterwards, and the stream is released at once when `stop()` throws |
| `AudioSession.RestartBeforeStopEventLeaks` | client/js/infra/messenger.js:65 | start, a successful `stop()`, then a new start before the stop event leaves one leaked microphone stream |
| `AudioSession.Capture.IsRecordingActive` | client/js/infra/messenger.js:204 | an active session holds a recorder and an open stream |
| `Catalog.IsValidElement` | client/js/core/pure.js:34 | (corrected) a tag is valid exactly when it is one of the five element tags |
| `Catalog.Tag` | client/js/core/pure.js:1-32 | defines each element's key in the tables (`earth`, `water`, `fire`, `air`, `spirit`) |
| `Catalog.ElementOf` | client/js/core/pure.js:1-34 | the element whose key the tag is; none exactly when no element has that tag |
| `Catalog.TagRoundTrip` | client/js/core/pure.js:1-34 | every element's tag maps back to that element |
| `Catalog.IsValidElementAsWritten` | client/js/core/pure.js:34 | the `in` test accepts every valid tag, and beyond those only names inherited from `Object.prototype` |
| `Catalog.InheritedNamesPassValidation` | client/js/core/pure.js:34 | "toString" and "constructor" pass the test as written but are not element tags |
| `Catalog.GetAllElements` | client/js/core/pure.js:153 | five distinct tags, which are exactly the valid ones |
| `Catalog.Prompts` | client/js/core/pure.js:1-32 | every element has exactly four prompts |
| `Catalog.PromptsFor` | client/js/core/pure.js:59 | a tag has a prompt list exactly when it is valid, and the list has four prompts |
| `Catalog.PickIndex` | client/js/core/pure.js:60 | `Math.floor(random * n)` for `random` in [0, 1) is an index below `n` |
| `Catalog.PickIndexUniform` | client/js/core/pure.js:60 | index `i` is picked exactly when `random` lies in [i/n, (i+1)/n), so each index gets an equal share |
| `Catalog.GetRandomPrompt` | client/js/core/pure.js:58-61 | for a valid tag the result is the prompt at the picked index, so always one of the element's prompts; no prompt for any other tag |
| `Catalog.Color` | client/js/core/pure.js:47-56 | each element's colour is a 24-bit RGB value |
| `Catalog.GetElementColor` | client/js/core/pure.js:47-56 | a colour exactly for the valid tags: the table colour of the element the tag names, a 24-bit value |
| `Catalog.ColorsDistinct` | client/js/core/pure.js:47-56 | different elements have different colours |
| `Catalog.DisplayName` | client/js/core/pure.js:63-129 | defines the `name` field of each element's row of `ELEMENT_DETAILS` |
| `Catalog.Figure` | client/js/core/pure.js:63-129 | defines the `figure` field of each element's row of `ELEMENT_DETAILS` |
| `Catalog.Description` | client/js/core/pure.js:63-129 | defines the `description` field of each element's row of `ELEMENT_DETAILS` |
| `Catalog.NatureAction` | client/js/core/pure.js:63-129 | every element's nature action is non-empty |
| `Catalog.QuickFacts` | client/js/core/pure.js:63-129 | every element has exactly five quick facts |
| `Catalog.Details` | client/js/core/pure.js:63-129 | every element's details carry five quick facts and a non-empty nature action |
| `Catalog.GetElementDetail` | client/js/core/pure.js:132 | details exactly for the valid tags, each the row of the element the tag names |
| `Catalog.GetElementDetails` | client/js/core/pure.js:131 | the table is keyed by exactly the five tags, each row the details of its element |
| `Catalog.DetailAgreesWithTable` | client/js/core/pure.js:131-132 | looking up one tag agrees with looking it up in the whole table |
| `Catalog.GetNatureAction` | client/js/core/pure.js:133 | the element's non-empty nature action for a valid tag, "" for any other tag |
| `Catalog.NatureActionOfEveryElement` | client/js/core/pure.js:133 | each element's tag yields its nature action, which is never empty |
| `Catalog.CreateEntry` | client/js/core/pure.js:135-141 | keeps element and text as given, takes id and date from the clock parameters, uses the given folder or "inbox" when it is omitted |
| `Catalog.CreatedFolderValidity` | client/js/app/commander.js:52 | an entry created without a folder lands in "inbox", which is no element folder; one created with its element as folder, as the save handler does, lands in a valid folder |

## Left out

- DOM, WebGL and UI files (client/js/ui/scribe.js, both spaceBackground.js files, Elementa/src/lib/ui/webglSupport.js, client/js/main.js, the handlers of client/js/app/commander.js): presentation only.
- The whitespace-only save rule of client/js/app/commander.js:43-49 lives in the UI handler, not in the store, and is not a precondition of `Journal.Save`.
- `getElementGeometry` and `formatDate` (client/js/core/pure.js:36-45, 143-151): Three.js objects and locale formatting.
- Real `localStorage`, `JSON.parse`/`JSON.stringify`, `SpeechRecognition`, `MediaRecorder`, `Blob`, `getUserMedia` and console logging. Storage holds entry values directly: a stored text that parses to anything other than an array (including an empty string, which `|| "[]"` treats as missing) is folded into `Absent` or `Corrupt`. Array items that are not well-formed entries are not modelled.
- `async`/`await` scheduling: every operation is one atomic step, and events arrive only between calls.
- Events from an older recognizer or recorder after a restart are not told apart: every event applies to the current session.
- Only the first alternative of each speech result is modelled, as the source reads only `[0]`.
- The recorded audio is returned by `Capture.OnStop` but not stored; its MIME type (the recorder's `mimeType`) is not modelled.
- `Capture.Start`: the `element` argument is only logged and is left out; the cause of a fault is not modelled beyond its `name` and `message`.
- `Session.Start`: the `element` argument is only logged; the recognizer settings (`continuous`, `interimResults`, `lang`) are not modelled.
- `Catalog.GetRandomPrompt`: for a tag that is neither one of the five keys nor an inherited name (for example "inbox") the source reads `undefined.length` and throws a `TypeError`; the model returns `None` instead and does not model the throw.
- `Catalog.GetRandomPrompt`, `Catalog.GetElementColor`, `Catalog.GetElementDetail`: on an inherited `Object.prototype` name the source reads the inherited property; `getRandomPrompt("toString")` returns `undefined` (the inherited function's `length` is 0, so it reads index 0 of a function), and `getElementColor`/`getElementDetail` return the inherited function. The model answers `None` for every such tag.
- The catalog's tables are functions of `Element`, with long texts written as concatenations of shorter pieces. The texts are the source's, but the model states no property of their wording.

## Findings

| source | as written | input that shows it | evidently intended | confidence | as-written member | corrected member |
|---|---|---|---|---|---|---|
| client/js/core/pure.js:34 | `element in ELEMENT_PROMPTS` also sees names inherited from `Object.prototype` | `isValidElement("toString")` is true; `getRandomPrompt("toString")` then returns `undefined`, and `getElementColor("toString")` and `getElementDetail("toString")` return the inherited `Object.prototype.toString` function | valid exactly for the five element tags (as `getAllElements` lists them) | high, not executed | `Catalog.IsValidElementAsWritten`, `Catalog.InheritedNamesPassValidation` | `Catalog.IsValidElement` |
