# Log console line pipeline and reader lifecycle

A Dafny model of the core of IntelliJ's `LogConsole`, a console that tails a log file and shows it through a filter.

- A reader thread (`ReaderThread`) opens the file, optionally skips what is already there, and polls for new lines. On stop it can drain the remaining lines first.
- Every line goes through `addMessage`. It is classified with the preferences' `getType`, and admitted or not by `isApplicable` against the type of the previous tagged line (`myPrevType`). An admitted line is printed with an output category: its own type's category if it is tagged, otherwise error output after an ERROR line and normal output otherwise. Every line is also appended to the original document, once that document exists. That document is seeded from the console editor's text when first needed (LogConsole.java:130-138), so its seed is what the console showed at that moment, filtered. Only the lines appended afterwards are unfiltered.
- When the filter changes, `filterConsoleOutput` clears the console and replays the original document through the same step.

Modules:

- `Wrappers`: `Option`, standing in for a Java reference that may be null.
- `LogFilter`: the per-line step (`Emit`, `NextType`, `OutputCategory`). Two drivers:
  - `Replay`, first line to last, as the re-filter loop runs;
  - `History` and `LastType`, one line at a time, as lines arrive.
  - It also has the lemmas that relate the two drivers, and `Shown`, what the console displays after its last clear.
- `LogDocument`: the original document (`OpenDocument`, `AppendLine`, `Recorded`) and its completeness.
- `LineSource`: the file as an abstract sequence of lines with a cursor and an optional position where reading fails. It covers opening, polling slices, and the drain on stop.
- `Logging`: the class `LogConsole` (fields `prevType`, `originalDocument`, `console`, `consoleDisposed`, `stopListeners`) and the class `ReaderThread` (fields `fileStream`, `running`). Their methods are proved against `Step` and `Feed`, the value-level specification of lines arriving.

Interfaces and collaborators:

- `LogConsolePreferences` is not part of this model. `getType`, `isApplicable` and the ERROR key are uninterpreted: they are the fields of a `Prefs` value.
- The `Host` argument of each operation carries the preferences and the lines of the console's editor (absent until the editor exists).
- The two category families of the source (`ProcessOutputTypes` for lines arriving, `ConsoleViewContentType` for the replay) are one `Category` datatype here, and a tagged line's category is its key under both paths (see "## Left out"). Printing through the light process handler and printing to the console are both a `Printed` event.

Behaviours of the code that the model keeps and proves:

- `filterConsoleOutput` does not reset `myPrevType`. It replays the document from the current value (LogConsole.java:140-159). `RefilterCanRecategorize` shows that the first re-filter can change an untagged line's category. `RefilterSettles` proves that every replay from the second on prints the same.
- In `stopRunning`, an `IOException` during the drain skips `close` and leaves the stream non-null (LogConsole.java:231-248). Under the model's permanent read failures, a later stop reads nothing more (`StopIsIdempotent`). Errors that clear on retry are listed under "## Left out".
- Admission is left to `isApplicable`, also for lines that arrive before any tagged line. The model assumes no default-admit rule.

## Model

| member | source | states |
|---|---|---|
| `LogFilter.Replay` | source/com/intellij/diagnostic/logging/LogConsole.java:146-157 | replaying lines prints at most one event per line and never a clear |
| `LogFilter.ReplayAppend` | source/com/intellij/diagnostic/logging/LogConsole.java:146-157 | replaying a + b prints a's output, then b's output replayed from the type a left; it ends with b's final type |
| `LogFilter.ReplayIsIncremental` | source/com/intellij/diagnostic/logging/LogConsole.java:95-103 | the replay loop prints exactly what the lines printed when they arrived one at a time from the same starting type, and it leaves the same final type |
| `LogFilter.CarryForward` | source/com/intellij/diagnostic/logging/LogConsole.java:96-103 | a line is admitted against the type as it stood before the line. A tagged line prints with its own type and becomes the previous type. An untagged line prints as error output exactly when the previous type is ERROR, and leaves the previous type unchanged |
| `LogFilter.LastTypeIsLastTagged` | source/com/intellij/diagnostic/logging/LogConsole.java:101-103 | after a run of lines the previous type is the type of the last tagged line, or the starting type when no line is tagged |
| `LogFilter.LastTypeSettles` | source/com/intellij/diagnostic/logging/LogConsole.java:154-156 | running the same lines again from the type they left does not change that type |
| `LogFilter.RefilterSettles` | source/com/intellij/diagnostic/logging/LogConsole.java:140-159 | replay does not reset the previous type, yet a second replay ends where the first did and every later replay prints the same |
| `LogFilter.RefilterCanRecategorize` | source/com/intellij/diagnostic/logging/LogConsole.java:150-152 | for a concrete document, the first re-filter prints an untagged leading line as normal output and the second prints it as error output |
| `LogFilter.ShownAppend` | source/com/intellij/diagnostic/logging/LogConsole.java:97-100 | printing lines adds exactly them, in order, to what the console shows |
| `LogFilter.ShownAfterClear` | source/com/intellij/diagnostic/logging/LogConsole.java:143-153 | after a clear and then printed lines, the console shows exactly those lines |
| `LogDocument.RecordedComplete` | source/com/intellij/diagnostic/logging/LogConsole.java:104-115 | once the original document exists, it holds its initial lines plus every arriving line, admitted or not, in arrival order; without an editor it stays absent |
| `LineSource.Open` | source/com/intellij/diagnostic/logging/LogConsole.java:189-202 | the stream is non-null exactly when nothing throws, the file exists or was created, and, when skipping, no read failure lies within the skipped contents. A created file is empty. With skipContents the cursor starts at the end of the existing lines, otherwise at the start |
| `LineSource.DrainEndReadsLines` | source/com/intellij/diagnostic/logging/LogConsole.java:236-240 | every read before the drain end yields the line at that position. The read at the drain end yields no line, and it fails exactly at a read-failure position |
| `LineSource.FlushDeliversRemaining` | source/com/intellij/diagnostic/logging/LogConsole.java:231-244 | without a read failure, a flushing stop passes on every remaining line and nulls the stream; a non-flushing stop passes on none and nulls the stream |
| `LineSource.StopIsIdempotent` | source/com/intellij/diagnostic/logging/LogConsole.java:231-244 | a second stop passes on nothing and leaves the stream as the first stop left it |
| `LineSource.SliceStep` | source/com/intellij/diagnostic/logging/LogConsole.java:210-213 | one more readiness check reads the ready line and moves past it; with nothing ready it reads nothing |
| `LineSource.SliceStuck` | source/com/intellij/diagnostic/logging/LogConsole.java:211-224 | a read failure at the cursor ends the slice there, having read nothing more |
| `LineSource.PollsCompose` | source/com/intellij/diagnostic/logging/LogConsole.java:207-214 | two polling slices read what one slice of their combined budget would, in file order |
| `Logging.FeedComponents` | source/com/intellij/diagnostic/logging/LogConsole.java:95-116 | after lines arrive one by one: the previous type is that of the last tagged line, the document has recorded every line, and the console has received the line-at-a-time output |
| `Logging.FeedAppend` | source/com/intellij/diagnostic/logging/LogConsole.java:95-116 | delivering a and then b leaves the console in the same state as delivering a + b |
| `Logging.FeedIsReplay` | source/com/intellij/diagnostic/logging/LogConsole.java:95-159 | lines delivered one by one add to the display exactly what a replay of them from the same starting type prints. They end with the same type, and the existing document gains exactly those lines |
| `Logging.SlicesAdvance` | source/com/intellij/diagnostic/logging/LogConsole.java:207-214 | one more polling slice leaves the stream and the console as one slice of the combined budget would |
| `Logging.LogConsole.constructor` | source/com/intellij/diagnostic/logging/LogConsole.java:55-65 | a new console has no previous type, no original document and an empty display. Its reader is running, with the stream that opening the file gives, and is not-open when that stream is null |
| `Logging.LogConsole.GetOriginalDocument` | source/com/intellij/diagnostic/logging/LogConsole.java:130-138 | the document is created from the editor's lines on first use when an editor exists, and kept afterwards |
| `Logging.LogConsole.AddMessage` | source/com/intellij/diagnostic/logging/LogConsole.java:95-116 | the new state is one `Step`: the previous type becomes the line's type only if the line is tagged, the display gains exactly the admitted line with its category, and the line is appended to the document once it exists |
| `Logging.LogConsole.FilterConsoleOutput` | source/com/intellij/diagnostic/logging/LogConsole.java:140-159 | without a document nothing changes. Otherwise the console is cleared and shows exactly the replay of the document from the current previous type, and the previous type is the one the replay leaves |
| `Logging.LogConsole.AttachStopTrackingListener` | source/com/intellij/diagnostic/logging/LogConsole.java:118-128 | a stop listener is registered only when there is a process |
| `Logging.LogConsole.ProcessTerminated` | source/com/intellij/diagnostic/logging/LogConsole.java:121-124 | a registered listener unregisters itself and then stops the reader with flushing; with no listener registered nothing happens, so each listener fires at most once |
| `Logging.LogConsole.StopRunning` | source/com/intellij/diagnostic/logging/LogConsole.java:87-89 | stopping with flush delivers the remaining lines through the pipeline and leaves the reader stopped |
| `Logging.LogConsole.Dispose` | source/com/intellij/diagnostic/logging/LogConsole.java:82-85 | the display is disposed and the reader is stopped without flushing: the stream is null and the pipeline state is unchanged |
| `Logging.ReaderThread.constructor` | source/com/intellij/diagnostic/logging/LogConsole.java:186-203 | the reader starts running with the stream that opening the file gives |
| `Logging.ReaderThread.PollSlice` | source/com/intellij/diagnostic/logging/LogConsole.java:209-214 | a slice reads the ready lines in order up to its budget or a read failure, and passes each to `addMessage`; it does nothing when not running or the stream is null |
| `Logging.ReaderThread.Run` | source/com/intellij/diagnostic/logging/LogConsole.java:205-229 | with a null stream, run returns without reading. Otherwise, while running, the slices together read and deliver the lines up to their total budget or the first read failure |
| `Logging.ReaderThread.StopRunning` | source/com/intellij/diagnostic/logging/LogConsole.java:231-249 | the running flag ends false. With flush, every line up to the end of input or a read failure reaches `addMessage` in read order; without flush, none does. The stream is then nulled, except after a read failure |

## Left out

- Swing and IDE plumbing: the panel layout, `createToolbar`, `FilterAction`, `FilterComponent`, `ConsoleView` and `DiagnosticBundle`. A filter change is modelled as a call to `FilterConsoleOutput` with the new preferences.
- `LightProcessHandler`: it only throws or returns null.
- `LogConsolePreferences` internals (`getType`, `isApplicable`, `getProcessOutputTypes`, `getContentType`, filter persistence): they are uninterpreted, so no default-admit or substring rule is assumed.
- `myPrevType == LogConsolePreferences.ERROR` is a Java reference comparison. It is modelled as value equality, which assumes that `getType` returns the interned ERROR constant.
- Threads, `synchronized`, `wait`, `invokeLater` and `runWriteAction`. The deferred document insert is an ordered append in the same call. Operations are sequential calls, and `stopRunning` can only interleave with `run` between polling slices.
- The wall-clock slice length, the idle wait and the `isActive` visibility gate in `run`. Timing is a budget of readiness checks per slice, given as a parameter.
- Real file I/O. `FileReader`, `ready`, `readLine`, `skip` and `close` act on an abstract sequence of lines with a cursor. `FileUtil.createParentDirs` and `createNewFile` become a boolean "creation succeeded". Any other exception while opening becomes a boolean "throws". `skip(file.length())` skips all existing lines and fails when a read failure lies within them, so partial lines and character-versus-byte lengths are not modelled.
- Logging.ReaderThread.StopRunning: an `IOException` from `close` itself is not modelled; only read failures are.
- A file growing while the reader is open: the file's lines are fixed when the reader is created.
- `DocumentImpl`: the original document is a sequence of lines, each inserted `text + "\n"` being one line. How a document counts the empty segment after its final newline is not part of this model.
- Logging.ReaderThread.Run: a read failure is modelled as a fixed position where every read fails, permanently. After a transient `IOException`, the source catches it (LogConsole.java:222-224) and the next slice calls `ready`/`readLine` again, which may read past it. The model does not capture errors that clear on retry. For the same reason, the run delivers lines only up to the first read failure. Its logging (`LOG.error`) is not modelled.
- LineSource.StopIsIdempotent: "a second stop passes on nothing" holds after a failed drain only because the model's read failures are permanent. The source's second `stopRunning(true)` calls `readLine` again (LogConsole.java:236) and would deliver lines if the error had cleared. Such transient errors are not modelled.
- LogFilter.ReplayIsIncremental: the source maps a tagged line's key in two ways. Arriving lines use `getProcessOutputTypes(key)` (LogConsole.java:97-98); the replay uses `getContentType(key)` (LogConsole.java:150-151). The model uses one category, `TypeOutput(key)`, for both. The lemma therefore assumes that `getContentType(k)` is the console content type into which the process handler turns `getProcessOutputTypes(k)`. That agreement depends on `LogConsolePreferences`, which is not part of this model. The ERROR/STDERR and normal/STDOUT fallbacks are assumed to correspond in the same way.
- Logging.FeedIsReplay: it rests on `LogFilter.ReplayIsIncremental`, so it makes the same assumption that the two category mappings agree.
- Logging.LogConsole.ProcessTerminated models one listener's callback. The dispatcher that notifies all registered listeners is not part of this model.
