# Story studio core, modelled in Dafny

The application turns a competitor's video transcript into a new story, a
voice-over and batch images. This project models its self-contained logic.

- **Long-text speech.** `generateSpeechFromLongText` splits a story into
  chunks of at most 8000 characters. Each cut falls after the last `.` or
  newline in the window; a window with neither is cut hard at 8000. The
  chunks are synthesised one at a time, with a 2000 ms pause before every
  chunk but the first. `generateSpeech` retries each request: up to three
  attempts, waiting `attempt * 3000` ms between them, and rethrowing the last
  error. The returned byte arrays are then concatenated into one buffer.
- **WAV encoding.** `createWavBlob` writes the canonical 44-byte RIFF WAVE
  header in place, then the PCM bytes. The header is little-endian, 24 kHz,
  mono, 16-bit PCM, with a 16-byte `fmt ` chunk and a `data` chunk, as in
  the WAVE form of the Multimedia Programming Interface and Data
  Specifications 1.0.
- **Story editor.** Undo/redo history is kept in a class whose methods update
  it in place. The CSV export doubles `"` inside quoted fields, as in RFC 4180
  section 2, rule 7.
- **Ingest form.** Submitting checks the title, then the transcript's
  length, in that order. The image type and size are checked separately,
  when a file is chosen, and a refused file is not stored. The form also
  decides whether the submit button is enabled.
- **Application screens.** A tagged union of screens with guarded transitions.
  The settings and YouTube-assets detours restore the saved screen exactly.
- **Batch images.** The count check, the classification of a batch's outcome,
  the integer progress percentage, the file and folder names, and the
  byte-filling loop used when packing the archive.

Every network call is a parameter. In the speech pipeline, which retries,
it is a function from request number to the outcome that request yields,
`(chunk, attempt) -> outcome`. The application's handlers and the batch
generator take the one settled outcome of their call.
Waits are recorded as millisecond values, not slept. `atob` is a foreign
function: the model takes the string it decodes to as input, or the error it
throws.

Strings are Dafny `string`s holding only characters of the Basic
Multilingual Plane. Each character is then one UTF-16 code unit, which is
what JavaScript's `length`, `substring` and `charCodeAt` count. Text with
surrogate pairs is outside the model.

Modules: `Wrappers` (Option, Result), `ByteBuffers`, `SpeechChunker`,
`SpeechSynthesis`, `WavEncoder`, `StoryHistory`, `CsvExport`, `Decimal`
(JavaScript's number printing and `padStart`), `IngestValidation`, `AppFlow`,
`BatchImages`.

Where the code and its comments disagree, the model follows the code:

- The retry wait is linear (`attempt * 3000`), although the comment calls it
  exponential.
- The ingest form passes a `skipToVoice` flag that the `IngestData` type in
  `types.ts` does not declare. The model's `IngestData` carries it.

## Model

| member | source | states |
|---|---|---|
| SpeechChunker.LastIndexOf | services/geminiServiceProxy.ts:450-451 | the result is -1 or an index holding the character, with no occurrence after it |
| SpeechChunker.SplitIndex | services/geminiServiceProxy.ts:449-458 | the cut is between 1 and 8000; it falls just after the last `.` or newline of the window, and is exactly 8000 when the window has neither |
| SpeechChunker.ChunksRoundTrip | services/geminiServiceProxy.ts:441-472 | joining the chunks in order gives back exactly the input text |
| SpeechChunker.ChunkBounds | services/geminiServiceProxy.ts:433-466 | there are no chunks iff the text is empty; every chunk has length 1..8000 |
| SpeechChunker.ChunkCutPoints | services/geminiServiceProxy.ts:442-465 | chunk i is a non-empty prefix of the remaining text. A non-final chunk comes from a remainder over 8000 and ends at the window's last terminator, or is 8000 long when there is none. The final chunk is the whole remainder, of at most 8000 |
| SpeechChunker.SplitIntoChunks | services/geminiServiceProxy.ts:437-466 | the loop yields exactly the chunk sequence, and the processed-character count equals the text's length |
| ByteBuffers.BinaryStringBytes | services/geminiServiceProxy.ts:404-409 | for a binary string (all codes below 256), byte i equals character code i |
| ByteBuffers.DecodeBinaryString | components/BatchImageGenerator.tsx:84-88 | the filled array has the decoded string's length, and byte i is character code i modulo 256 |
| ByteBuffers.FlattenLength | services/geminiServiceProxy.ts:493 | the concatenation's length is the sum of the parts' lengths |
| ByteBuffers.PartPlacement | services/geminiServiceProxy.ts:493-500 | part i sits unchanged at [sum of earlier lengths, + its length) |
| ByteBuffers.Concatenate | services/geminiServiceProxy.ts:493-500 | the buffer, filled in place at a moving offset, has the total length and holds the parts laid end to end |
| SpeechSynthesis.GenerateSpeech | services/geminiServiceProxy.ts:395-426 | the retry loop's result, request count and waits are those of the retry specification |
| SpeechSynthesis.RetryShape | services/geminiServiceProxy.ts:396-421 | at most `retries` requests, at least one when `retries` >= 1, none otherwise (then the "after all retries" error); the wait after failed request k is k*3000 ms |
| SpeechSynthesis.RetryFirstSuccess | services/geminiServiceProxy.ts:396-416 | success iff some request delivers; the first delivery's bytes are returned after exactly that many requests; if every request throws, the last error is rethrown after `retries` requests |
| SpeechSynthesis.GenerateSpeechFromLongText | services/geminiServiceProxy.ts:428-505 | the chunks, per-chunk records and audio are those of the pipeline specification |
| SpeechSynthesis.SynthesisOrder | services/geminiServiceProxy.ts:477-491 | chunks are visited strictly in order. Record j reports progress (j+1, total) for chunk j, has a 2000 ms pause unless j = 0, and uses the default three attempts |
| SpeechSynthesis.StoppedStep | services/geminiServiceProxy.ts:477-491 | a chunk that succeeded, in front of a loop that ended well, gives a loop that ended well over one more chunk |
| SpeechSynthesis.SynthesisStops | services/geminiServiceProxy.ts:477-491 | the loop passes a chunk only if it succeeded and stops at the first failed chunk with its error; success iff every chunk was reached and succeeded, and part j is chunk j's audio |
| SpeechSynthesis.EmptyTextNoRequests | services/geminiServiceProxy.ts:441-477 | empty text gives no chunks, no requests, no progress reports and empty audio |
| SpeechSynthesis.LongTextSpeechShape | services/geminiServiceProxy.ts:428-491 | the whole pipeline: the chunks join to the text, and records come in chunk order, record j carrying progress (j+1, total), chunk j's text and a 2000 ms pause unless j = 0 |
| SpeechSynthesis.LongTextSpeechOutcome | services/geminiServiceProxy.ts:477-505 | success iff every chunk was reached and succeeded; a failure carries the last reached chunk's error and no audio; success is every chunk's audio laid end to end, its length the sum of the parts' lengths |
| WavEncoder.LE16RoundTrip | components/StoryEditor.tsx:54-59 | reading back the two little-endian bytes gives the value modulo 2^16 |
| WavEncoder.LE32RoundTrip | components/StoryEditor.tsx:48-63 | reading back the four little-endian bytes gives the value modulo 2^32 |
| WavEncoder.Header | components/StoryEditor.tsx:43-63 | the header is 44 bytes |
| WavEncoder.WavRoundTrip | components/StoryEditor.tsx:35-69 | the output is 44 + n bytes. The tags RIFF/WAVE/fmt /data are at offsets 0/8/12/36. The fields read back as 36+n, 16, 1, 1, 24000, 48000, 2, 16 and n (sizes modulo 2^32), and bytes 44.. are the PCM input verbatim |
| WavEncoder.WriteString | components/StoryEditor.tsx:29-33 | byte offset+i becomes character i's code, and the bytes after it are unchanged |
| WavEncoder.SetUint16 | components/StoryEditor.tsx:54-55 | the two bytes at the offset become the value's little-endian 16-bit form, and later bytes are unchanged |
| WavEncoder.SetUint32 | components/StoryEditor.tsx:48 | the four bytes at the offset become the value's little-endian 32-bit form, and later bytes are unchanged |
| WavEncoder.WriteRiffDescriptor | components/StoryEditor.tsx:46-49 | bytes 0..12 become "RIFF", 36+n and "WAVE"; the rest is unchanged |
| WavEncoder.WriteFmtChunk | components/StoryEditor.tsx:51-59 | bytes 12..36 become the fmt chunk; the earlier and later bytes are unchanged |
| WavEncoder.WriteDataChunkHeader | components/StoryEditor.tsx:61-63 | bytes 36..44 become "data" and n; the earlier and later bytes are unchanged |
| WavEncoder.CreateWavBlob | components/StoryEditor.tsx:35-69 | the fresh buffer has length 44 + n and holds exactly the header followed by the PCM bytes |
| StoryHistory.Initial | components/StoryEditor.tsx:73-75 | the initial state ([story], 0, story) is synced |
| StoryHistory.EditDiscardsRedoTail | components/StoryEditor.tsx:94-102 | an edit keeps history[0..index], appends the value, points at it and shows it; redo then does nothing, and undo shows the previous entry |
| StoryHistory.UndoRedoMoves | components/StoryEditor.tsx:104-116 | undo at 0 and redo at the last entry change nothing; otherwise the index moves by one and the entry there is shown; the history is never modified |
| StoryHistory.UndoRedoRoundTrip | components/StoryEditor.tsx:104-116 | undo then redo (and redo then undo) restore index and story |
| StoryHistory.StepKeepsSync | components/StoryEditor.tsx:94-116 | each edit, undo or redo keeps the index in range and the shown story equal to the current entry |
| StoryHistory.RunKeeps | components/StoryEditor.tsx:94-116 | any sequence of edits, undos and redos keeps that invariant, and the first entry |
| StoryHistory.HistoryInvariant | components/StoryEditor.tsx:73-116 | from the initial state, 0 <= historyIndex < \|history\| and the shown story is history[historyIndex], after any sequence of actions |
| StoryHistory.ResyncNotInHistory | components/StoryEditor.tsx:83-85 | a new story prop changes neither the history nor the index; the state stays synced iff the prop equals the current entry (so a prop outside the history breaks sync); with an earlier entry present, undo then redo shows the current entry again |
| StoryHistory.EditorState.constructor | components/StoryEditor.tsx:73-75 | the component state starts as ([story], 0, story) |
| StoryHistory.EditorState.HandleStoryChange | components/StoryEditor.tsx:94-102 | the fields are updated in place to the edit's new state |
| StoryHistory.EditorState.Undo | components/StoryEditor.tsx:104-109 | the fields are updated in place to undo's new state |
| StoryHistory.EditorState.Redo | components/StoryEditor.tsx:111-116 | the fields are updated in place to redo's new state |
| StoryHistory.EditorState.ResyncStory | components/StoryEditor.tsx:83-85 | only the shown story changes |
| CsvExport.EscapeQuotes | components/StoryEditor.tsx:229 | escaping never shortens a field and leaves a field without `"` unchanged |
| CsvExport.EscapeRoundTrip | components/StoryEditor.tsx:229 | collapsing `""` back to `"` recovers the original field |
| CsvExport.ReadEscaped | components/StoryEditor.tsx:229 | an RFC 4180 reader reads an escaped, closed field back as the field, with the text after it |
| CsvExport.RowRoundTrip | components/StoryEditor.tsx:228-230 | the row reads back as exactly the four fields (title, thumbnail URL, story, transcript) when the unescaped URL has no `"` |
| CsvExport.ExportRoundTrip | components/StoryEditor.tsx:227-231 | the file is the newline-free header line, a newline, and a line reading back as the four fields when the URL has no `"` |
| Decimal.NatToString | components/BatchImageGenerator.tsx:90 | `String(n)` is non-empty digits, with no leading zero unless it is "0" |
| Decimal.IntToString | components/BatchImageGenerator.tsx:50 | a leading `-` appears exactly for negative numbers |
| Decimal.NatToStringRoundTrip | components/BatchImageGenerator.tsx:90 | reading the printed digits gives back the number |
| Decimal.PadStartShape | components/BatchImageGenerator.tsx:90 | `padStart` output has length max(width, \|s\|), ends with s, and is fill characters before it |
| Decimal.PaddedRoundTrip | components/BatchImageGenerator.tsx:90 | zero-padded digits still read back as the number |
| IngestValidation.TrimIsSlice | components/IngestForm.tsx:54 | `trim` gives a slice of the input that neither starts nor ends with JavaScript white space, and everything cut off is white space |
| IngestValidation.TrimEmpty | components/IngestForm.tsx:54 | the trimmed title is empty iff the title is all white space |
| IngestValidation.TrimIdempotent | components/IngestForm.tsx:82 | trimming twice is trimming once |
| IngestValidation.CheckSubmission | components/IngestForm.tsx:49-80 | accepted iff the trimmed title is non-empty and 100 <= raw length <= 200000; otherwise the first failing check (title, too short, too long) is reported |
| IngestValidation.Submit | components/IngestForm.tsx:49-83 | on a failure only the error is set, to that check's per-mode message, and nothing is passed on. On acceptance the form is unchanged, and the trimmed title, the transcript, the image and the mode are passed on. Acceptance is the same in both modes |
| IngestValidation.ChangeImage | components/IngestForm.tsx:24-39 | no file changes nothing. A file is taken iff its type is jpeg/png/webp and its size is at most 5*1024*1024. The type is reported before the size, and a refused file leaves the image state untouched |
| IngestValidation.EnabledPassesFirstChecks | components/IngestForm.tsx:85-86 | an enabled submit button implies the title and minimum-length checks pass |
| IngestValidation.EnabledYetTooLong | components/IngestForm.tsx:62-86 | the button tests the trimmed length while the handler tests the raw one, so a padded 200000-character text enables the button and is then refused as too long |
| AppFlow.Initial | App.tsx:39 | the app starts on the ingest screen |
| AppFlow.AnalysisStart | App.tsx:70-87 | success moves to title generation, carrying the ingest data and the analysis; failure returns to ingest with the analysis error; the selection is untouched |
| AppFlow.TitleApproved | App.tsx:89-96 | moves to the background prompt with the given title, data and analysis, and nothing else changes |
| AppFlow.BackgroundsGenerate | App.tsx:98-118 | acts only from the background prompt. Success shows the suggestions with the data and title kept, and selects the first. Failure only sets the error |
| AppFlow.SelectBackground | App.tsx:245 | only the selection changes |
| AppFlow.ProceedToStoryPrompt | App.tsx:120-129 | acts only from suggestions with a non-empty selection, which becomes the approved background |
| AppFlow.AppendPart | App.tsx:152 | the new story is the part alone when the existing story is empty, else the existing story, "\n\n", then the part |
| AppFlow.GenerateStoryPart | App.tsx:131-170 | a no-op outside the story prompt and the editor. Success lands in the editor with the count one higher (from 0 at the prompt) and complete iff the count is >= 2. Failure sets the error and keeps the screen |
| AppFlow.ProceedToAssets | App.tsx:172-178 | acts only from the editor, saving its state |
| AppFlow.BackToEditor | App.tsx:281 | the saved editor state returns |
| AppFlow.Restart | App.tsx:184-189 | always the ingest screen, with no selection and no error |
| AppFlow.BackToSuggestions | App.tsx:191-197 | from the editor, reruns the analysis on the editor's ingest data; elsewhere nothing |
| AppFlow.OpenSettings | App.tsx:199-205 | a no-op on settings; otherwise it saves the current screen |
| AppFlow.CloseSettings | App.tsx:291 | the saved screen returns |
| AppFlow.SettingsRoundTrip | App.tsx:199-205 | opening then closing settings restores the state exactly; opening twice is opening once |
| AppFlow.AssetsRoundTrip | App.tsx:172-178 | going to the assets screen and back restores the editor state exactly |
| AppFlow.StepKeepsReachable | App.tsx:131-170 | every handler keeps all editor states, shown or saved, with count >= 1 and complete iff count >= 2, and keeps the approved background non-empty |
| AppFlow.RunKeepsReachable | App.tsx:131-170 | any sequence of events keeps that invariant |
| AppFlow.ReachableFromInitial | App.tsx:39-205 | from the start, after any events, the invariant holds |
| BatchImages.Classify | components/BatchImageGenerator.tsx:44-53 | all succeeded iff failed = 0; partial iff failed != 0 and success > 0; all failed iff failed != 0 and success = 0 |
| BatchImages.Generate | components/BatchImageGenerator.tsx:22-65 | an out-of-range count only sets the range notice. Otherwise the images and progress are replaced, the notice follows the verdict, and the preview shows iff an image came back. A failed call leaves no images |
| BatchImages.ProgressPercent | components/BatchImageGenerator.tsx:122-124 | 0 without a total; otherwise the integer nearest 100*current/total, with halves rounded up |
| BatchImages.ProgressBounds | components/BatchImageGenerator.tsx:122-124 | progress within the total is 0..100, and exactly 100 at the end |
| BatchImages.SanitizeIdempotent | components/BatchImageGenerator.tsx:109 | the result holds only letters, digits and `_`, and sanitising again changes nothing |
| BatchImages.FolderName | components/BatchImageGenerator.tsx:74 | the folder is the sanitised title followed by `_scenes` |
| BatchImages.SceneDigitsShape | components/BatchImageGenerator.tsx:90 | the scene number is at least three zero-padded digits that read back as the number |
| BatchImages.SceneFileNamesDistinct | components/BatchImageGenerator.tsx:90-94 | distinct scene numbers give distinct names, and an image name is never an info name |
| BatchImages.EntriesLength | components/BatchImageGenerator.tsx:81-99 | two `folder.file` calls per image, i.e. two entries in the list of files handed to the archive |
| BatchImages.EntriesAt | components/BatchImageGenerator.tsx:81-99 | in image order: image k's bytes under its scene name, then its text under the info name |
| BatchImages.EntriesOutcome | components/BatchImageGenerator.tsx:81-99 | packing succeeds iff every image's base64 decodes; otherwise it fails with the first failing image's error |
| BatchImages.DownloadNotification | components/BatchImageGenerator.tsx:67-119 | no images leave the notification unchanged; it is the success message iff every image decodes, and otherwise "Error creating ZIP: " with the first failing image's error |
| BatchImages.DownloadZip | components/BatchImageGenerator.tsx:67-99 | the packing loop, filling a fresh byte array per image, produces exactly the specified archive, or the first decoding error |

## Left out

- The HTTP transport (`callBackendAPI`'s fetch, its two-hour abort timer and its error mapping) is not modelled. Every call is a parameter that yields an outcome.
- Prompt building and every generation call to the language and image models are left out. So is the server proxy (`server/index.js`). These are string templates around foreign APIs.
- `generateSpeechPreview` and `generateLongAudio` are left out. They are one request plus the same byte loop as `DecodeBinaryString`, and `generateLongAudio` calls `/api/tts/synthesize-long-audio`, a route the server (`server/index.js`) does not define; the preview's route is defined there. `/api/gemini/batch-generate-images`, which the batch generator calls, is not defined by the server either, so the batch outcomes taken as inputs have no server behind them.
- Real waiting (`setTimeout`) is left out. The waits are recorded as millisecond values.
- `atob` is a foreign function. Its decoded string, or its error, is an input.
- Audio playback (`playPcmAudio`) is left out. It uses floating-point samples and the Web Audio API.
- The YouTube integration, the presentational components and all JSX are left out. So are notification timers, the clipboard, FileReader, Blob and download plumbing, and JSZip itself; the archive is modelled as its list of files.
- Version saving, the JSON and Markdown exports and timestamped file names are left out. They depend on the clock.
- AppFlow.AnalysisStart, AppFlow.BackgroundsGenerate, AppFlow.GenerateStoryPart: each is one atomic step from the state it is given. Events arriving while the call is in flight ("Start Over", opening settings) are not modelled. The source then overwrites whatever screen is showing with a state built from the state at call time, so a late result can undo a restart or replace the settings screen, after which the saved screen cannot be restored; AppFlow.SettingsRoundTrip and AppFlow.Restart hold only without such interleaving.
- The intermediate `loading` flags of the application and the intermediate notices are left out. Each asynchronous handler is modelled once its call has settled, and every such handler ends with `loading` cleared. This covers "Analyzing story...", "Creating ZIP file..." and `isGenerating` while a batch runs.
- The approval modal's open flag is left out.
- The form's transcript-change and image-removal handlers are left out.
- BatchImages.RequestedCount: `parseInt` on the custom field is not modelled; the field arrives as an integer or as empty. `NaN` slipping past the range check is a floating-point quirk left out.
- BatchImages.SceneDigitsShape: scene numbers are taken to be non-negative integers below 10^21. `sceneNumber` is a JavaScript number straight from the server response; fractional, negative or non-finite values are not modelled by the naming lemmas.
- BatchImages.ProgressPercent: the exact rational `100 * current / total` is rounded. Math.round on the floating-point quotient can differ at an exact half that binary floating point cannot represent.
- CsvExport.RowRoundTrip: holds only for thumbnail URLs without `"`. The export does not escape the URL, and the object URLs it receives contain none.
- Decimal.NatToString: prints plain decimal digits for every natural number. JavaScript's `String(n)` does so only below 10^21 and switches to exponent form (`1e+21`) from there on; such numbers are not modelled.
- SpeechChunker.SplitIndex, IngestValidation.CheckSubmission, BatchImages.Sanitize: characters outside the Basic Multilingual Plane are not modelled. JavaScript counts each as two UTF-16 code units, so the 8000-unit hard cut can split a surrogate pair, such a character counts 2 towards the 100/200000 limits, and the sanitiser writes two `_` for it.
- BatchImages.EntriesLength: the entry list is the sequence of `folder.file` calls. The archive library replaces an earlier file of the same name, so a batch with repeated scene numbers yields fewer files in the archive than entries; the archive's own de-duplication is not modelled.
- IngestValidation.IsJsSpace: characters outside the Basic Multilingual Plane (surrogate pairs) are not modelled. No JavaScript white space lies there.
- StoryHistory: the reset effect for a new `story` prop is modelled (`AfterResync`), but without the synced invariant, which it breaks.
- AppFlow.EditorState: the generation count is a natural number, as every handler produces it.
- SpeechSynthesis.GenerateSpeech: `voiceName` and the request text are not modelled. They only reach the network call, which is a parameter.
