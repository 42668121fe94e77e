# CodeBuddy core, modelled in Dafny

CodeBuddy is a PyQt code editor with a compile-and-run button, an AI
assistant panel, a file explorer and a few PDF-embedding scripts. This
project models the parts of it that are sequential decision logic. Processes,
dialogs, the file system and Qt are turned into inputs and effect traces.

- **Compile and run** (`CompileRun`, `Compiler`, shared `Toolchain`). The two
  handlers are pure functions. They take the source, the language and an
  *oracle*, which records what the child processes, the readiness probe and
  the input dialog did. Each returns the console result and the ordered trace
  of effects: the temporary directory created or removed, processes started,
  input written, the probe, the dialog. The console text is `Toolchain.Render`
  of the result; `Toolchain.ParseRender` shows that no two result categories
  can be confused.
- **Chunking** (`Chunking`, `SqliteStore`, `ChromaStore`). The overlapping
  window loop of `chunk_text` and of `extract_text_from_pdf` is modelled over
  any sequence, together with:
  - the row numbering of the SQLite store;
  - the chunk ids, parallel lists and error fallbacks of the Chroma store.
- **Pinecone ingest** (`PineconeIngest`):
  - how `batch_upsert` splits the records into batches;
  - the `.pdf` filter;
  - the record zip of `ingest_file`;
  - one pass of `main_loop`, which ingests and renames with a "_" prefix.
- **AI assistant** (`AiAssistant`):
  - request validation in `assist_code`;
  - the panel state machine of `update_ai_response` and `update_ai_error`;
  - what the worker thread (worker.py) emits.
- **File explorer** (`Explorer`):
  - directory selection;
  - opening a file into the editor;
  - the New File / New Folder dialogs over a map from paths to entries.
- **Syntax highlighting** (`Editor`):
  - the nine-keyword rule table;
  - `highlightBlock` as a whole-word match loop for each rule, followed by
    `setFormat` painting.

  Which characters count as word characters is a parameter, `isWord`.

`PyStr` and `PyPath` write out the Python behaviour the code relies on:
- `str.strip()` with `str.isspace`;
- `str.lower()` on ASCII;
- slicing with out-of-range bounds;
- `str.join`;
- `str(n)`;
- POSIX `os.path.join` and `os.path.basename`.

Notes on the code, which the model follows:
- `CompileRun` creates the temporary directory before the language check, so
  an unsupported language still creates and then removes a directory.
- The Java program is started as the bare path `<tempdir>/Main`, not through
  the Java runtime.
- A compiler that cannot be started is reported as "⚠️ Error occurred: …".
- The probed first process is never terminated before the re-run. The trace
  records no termination.

## Model

| member | source | states |
|---|---|---|
| Toolchain.Lookup | compile_run.py:19-34 | exactly c, c++, java and python are supported; only python has no compile step and runs `python3 -c code`; every compile command is given "-" and the source on stdin; c compiles with `gcc -x c` and c++ with `g++ -x c++`, both writing `tempdir/temp.out`, which is the file then started; java compiles into the temp dir and runs the bare path `tempdir/Main`; compiler.py:16-29 is the same table |
| Toolchain.ParseRender | compile_run.py:43-92 | every console message can be read back to its category and exact detail, so no two outcomes (no code, unsupported, compile error, execution error, output, error occurred) look alike |
| Toolchain.Render | compile_run.py:43-92 | the console text for each outcome; `Toolchain.ParseRender` proves it reads back to the outcome |
| Toolchain.Classify | compile_run.py:67-71 | any standard-error text makes an execution error carrying that text, whatever the exit code; otherwise the result is the standard output |
| Toolchain.CompileStage | compile_run.py:37-44 | only a language with a compiler starts one, with the source on stdin; it stops the run exactly when the compiler fails to start (error occurred) or exits non-zero (compile error with its stderr) |
| Toolchain.BracketedWrap | compile_run.py:94-96 | wrapping a trace that never touches the workspace between its creation and removal yields a bracketed trace |
| CompileRun.RunStage | compile_run.py:51-89 | a start failure is an error occurrence with nothing traced; an empty ready list makes the first `communicate()` final; otherwise the dialog is shown and the same command is started again and fed the dialog text, and its output decides |
| CompileRun.Attempt | compile_run.py:21-89 | inside the workspace: unsupported exactly for unknown languages with nothing started; compile error exactly on a non-zero compiler exit; the compiler is the first process; the dialog appears exactly when compilation passed, the program started and the probe chose input |
| CompileRun.ReadyListNonEmpty | compile_run.py:56-64 | the probe as written: input is asked for when a stream is ready on POSIX, or when the program is still running after 2 s on win32 |
| CompileRun.LooksBlocked | compile_run.py:56-64 | the probe with its POSIX verdict the right way round: input is asked for only when nothing was ready (POSIX) or the program is still running (win32) |
| CompileRun.ProbeVerdicts | compile_run.py:56-64 | the two probes agree exactly on win32 and give opposite verdicts on every POSIX observation |
| CompileRun.Invoke | compile_run.py:13-98 | blank source gives the no-code message and no effect at all; otherwise the temp dir is created first and removed last on every path, unsupported language included; compile error and dialog conditions as above |
| CompileRun.WrapFacts | compile_run.py:18-96 | creating and removing the directory around the inner trace keeps its dialog and its first two effects |
| CompileRun.CompileAndRun | compile_run.py:13-98 | the handler with the probe as written; blank source has no effects, other source a bracketed trace |
| CompileRun.CompileAndRunIntended | compile_run.py:56-66 | the handler with the POSIX probe corrected; same blank-source and cleanup guarantees |
| CompileRun.RunStageSpawns | compile_run.py:51-84 | the run stage starts nothing if the program cannot start, the run command twice after the dialog when the re-run starts, and once otherwise |
| CompileRun.AttemptSpawns | compile_run.py:37-84 | the processes started in the workspace are the compiler (when it ran) followed by zero, one or two runs of the run command |
| CompileRun.InvokeSpawns | compile_run.py:13-98 | the same list of processes for the whole handler |
| CompileRun.ProcessCount | compile_run.py:37-84 | at most the compiler plus two runs of the same command; two runs exactly when the dialog was shown and the re-run started; no run exactly when compilation failed or the program could not start |
| CompileRun.FirstRunIsFinal | compile_run.py:66-72 | when the probe chooses `communicate()`, no input is requested and the first run's output is classified |
| CompileRun.FedInput | compile_run.py:74-78 | the re-run is fed the text typed into the dialog, and a cancelled dialog feeds nothing, whatever was typed; `CompileRun.RerunFeedsDialogText` shows where it is written |
| CompileRun.RerunFeedsDialogText | compile_run.py:74-89 | when the probe chooses input, the trace ends with the probe, the dialog, a second start of the same command and the dialog's text (or "" if cancelled) written to it; the second run's output decides |
| CompileRun.ExitCodeIgnored | compile_run.py:66-89 | changing the run processes' exit codes changes neither the result nor the trace |
| CompileRun.FaultOnlyFromSpawnFailure | compile_run.py:91-92 | "error occurred" is reported exactly when the compiler, the first run or the re-run could not be started |
| CompileRun.PosixReadyAsksAsWritten | compile_run.py:57-74 | as written, on POSIX a program whose output is ready within two seconds is sent to the input dialog |
| CompileRun.PosixSilentNeverAsksAsWritten | compile_run.py:57-72 | as written, on POSIX a silent program is drained by `communicate()` and never asked for input |
| CompileRun.Win32Unchanged | compile_run.py:59-64 | the correction leaves win32 behaviour identical |
| CompileRun.IntendedFinishedNotAsked | compile_run.py:56-72 | corrected: a program that finished (win32) or showed output (POSIX) within the window keeps its first result and gets no dialog. The correction is inferred from the win32 branch, and it has its own cost: a program that flushes an input prompt before blocking, such as a Python `input("…")`, is drained by `communicate()` and reads end-of-file |
| CompileRun.IntendedSilentAsked | compile_run.py:56-89 | corrected: a program silent for the whole window is re-run with the user's input, on both platforms |
| CompileRun.HelloReachesProbe | compile_run.py:13-54 | the hello-world C program compiles and reaches the probe |
| CompileRun.HelloProgramAsWritten | compile_run.py:56-84 | as written, the hello-world program raises the input dialog and three processes are started |
| CompileRun.HelloProgramIntended | compile_run.py:56-72 | corrected, the same program is started once after the compiler, with no dialog, and its output is shown |
| Compiler.Attempt | compiler.py:15-58 | inside the `with` block nothing touches the directory itself; unsupported exactly for unknown languages, with nothing started |
| Compiler.CompileAndRun | compiler.py:10-58 | blank source gives the no-code message and no directory; otherwise the directory is created first and removed last, an unsupported language included |
| Compiler.AttemptQuiet | compiler.py:15-58 | the single-run handler's inner trace has no probe and no dialog |
| Compiler.NoProbeNoDialog | compiler.py:41-50 | the single-run handler never probes and never asks for input, whatever the processes do |
| Compiler.CompileErrorStopsRun | compiler.py:32-39 | a non-zero compiler exit reports its stderr as a compile error, and the compiler is the only process started |
| Compiler.SingleRun | compiler.py:41-55 | exactly one run process, without a stdin pipe, after the compiler if there is one; the result is its classified output |
| Compiler.SpawnFailureIsFault | compiler.py:57-58 | a compiler or run process that cannot start is reported with its message |
| PyStr.StripEmptyIff | compile_run.py:14 | `code.strip()` is empty exactly when every character is whitespace |
| PyStr.Lower | util/pincone_ingest.py:34 | lower-casing keeps the length and maps each ASCII capital to its small letter, leaving every other character |
| PyStr.LowerAppend | ai_assistant.py:25 | lower-casing distributes over concatenation |
| PyStr.NatToString | util/chroma_with_chunk.py:51 | `str(i)` is a non-empty string of decimal digits |
| PyStr.ParseNatToString | util/chroma_with_chunk.py:51 | `str(i)` can be read back to `i` |
| PyStr.NatToStringInjective | util/chroma_with_chunk.py:51 | distinct indexes print differently |
| PyStr.Slice | only_sqlit.py:23 | a slice never exceeds the sequence; with a start inside the sequence it runs from the start up to the end bound cut at the sequence's end (empty when the end does not pass the start), a negative end counting from the back; a start past the end gives nothing |
| PyPath.Join | explorer_sidebar.py:80 | an absolute name replaces the directory; otherwise the result starts with the directory and ends with the name |
| PyPath.Basename | explorer_sidebar.py:53 | the basename has no '/' and is the part of the path after its last '/', or the whole path when it has none |
| PyPath.BasenameOfJoin | explorer_sidebar.py:80-92 | the basename of a directory joined with a slash-free name is that name |
| Chunking.Windows | only_sqlit.py:19-21 | empty text gives no chunks |
| Chunking.NoProgressWithoutStride | only_sqlit.py:21-25 | if the overlap is not smaller than the chunk size, `start` never passes the end of non-empty text, so the loop runs forever |
| Chunking.StartAtIsProduct | only_sqlit.py:20-25 | after `k` iterations `start` is `k` strides in |
| Chunking.WindowsFromCount | only_sqlit.py:21-25 | from any start there are ⌈remaining / stride⌉ chunks |
| Chunking.WindowAt | only_sqlit.py:20-25 | chunk `i` is the text from the loop's `start` after `i` iterations up to `min(start + size, n)`, and that `start` is inside the text |
| Chunking.WindowClosedForm | only_sqlit.py:20-25 | chunk `i` is the text from `i*step` up to `min(i*step + size, n)`, where `step` is `chunk_size - overlap` |
| Chunking.WindowBounds | only_sqlit.py:21-24 | every chunk is non-empty and at most `chunk_size` long |
| Chunking.WindowCount | only_sqlit.py:21-25 | there are ⌈n / (chunk_size - overlap)⌉ chunks |
| Chunking.ReassembleFrom | only_sqlit.py:20-25 | the first `step` characters of each chunk but the last, then the last chunk, rebuild the text from any start |
| Chunking.Reconstruct | only_sqlit.py:20-25 | with `0 <= overlap < size` the chunks rebuild the whole text |
| Chunking.LastWindowEndsAtEnd | only_sqlit.py:20-25 | with a non-negative overlap the last chunk ends at the end of the text |
| Chunking.OverlapShared | only_sqlit.py:22-25 | a full-length chunk's last `overlap` characters are the next chunk's first |
| SqliteStore.ChunkText | only_sqlit.py:18-26 | `chunk_text` of empty text is empty |
| SqliteStore.ExtractText | only_sqlit.py:7-10 | the pages' texts joined by line breaks; `SqliteStore.ExtractTextAppend` states how each page extends it |
| SqliteStore.ExtractTextAppend | only_sqlit.py:7-10 | each further page follows the text so far after exactly one line break |
| SqliteStore.EmbedPdf | only_sqlit.py:44-60 | one row per 920 characters of text, rounded up; row `i` carries the document id, chunk id `i` and the embedding of its own chunk |
| SqliteStore.RowsFrom | only_sqlit.py:51-59 | one row per chunk, in order, numbered by position, with that chunk and its embedding |
| SqliteStore.RowsRestoreDocument | only_sqlit.py:44-59 | the inserted rows carry ids 0, 1, 2, … and, read back in that order without the overlaps, give the document's text |
| ChromaStore.ExtractTextFromPdf | util/chroma_with_chunk.py:13-34 | a PDF that raises gives no chunks, and so does an empty text |
| ChromaStore.DefaultChunks | util/chroma_with_chunk.py:13-29 | with the defaults a text of `n` characters gives ⌈n / 200⌉ chunks, each non-empty and at most 1000 long |
| ChromaStore.ChunkId | util/chroma_with_chunk.py:51 | the id is the document id, "_chunk_", then decimal digits that read back to the chunk's index |
| ChromaStore.ChunkIdInjective | util/chroma_with_chunk.py:51 | two indexes with the same id are equal |
| ChromaStore.EmbedPdf | util/chroma_with_chunk.py:36-52 | nothing is added exactly when there are no chunks; otherwise the ids, embeddings and documents are index-aligned with the chunks |
| ChromaStore.ChunkIdsDistinct | util/chroma_with_chunk.py:51-52 | the ids handed to `add` are pairwise distinct |
| ChromaStore.SearchPdf | util/chroma_with_chunk.py:58-72 | a non-empty result is the collection's first answer list; a raised query, a missing "documents" entry (the `[[]]` default) and an empty outer list (`IndexError`, caught) all give the empty list |
| ChromaStore.SearchReturnsStoredChunks | util/chroma_with_chunk.py:36-72 | when the collection answers with chunks `embed_pdf` stored, every chunk a search returns is one of the document's chunks, non-empty and at most 1000 characters |
| PineconeIngest.Batches | util/pincone_ingest.py:26-30 | a zero batch size raises and a negative one upserts nothing; the size defaults to 100 as in `batch_upsert`'s signature, and `PineconeIngest.BatchesPartition` gives the batches for a positive size |
| PineconeIngest.FlattenFrom | util/pincone_ingest.py:28-30 | the batches from any offset concatenate to the rest of the list |
| PineconeIngest.BatchesPartition | util/pincone_ingest.py:28-30 | the batches concatenate back to the list, there are ⌈n / b⌉ of them (none for an empty list), each has 1 to `b` records and all but the last exactly `b` |
| PineconeIngest.BatchesFull | util/pincone_ingest.py:28-30 | every batch but the last is full |
| PineconeIngest.Zip3 | util/pincone_ingest.py:54-56 | record `i` pairs the i-th uuid, embedding and text; the length is the shortest of the three |
| PineconeIngest.IsPdf | util/pincone_ingest.py:34 | the lower-cased path ends in ".pdf"; `PineconeIngest.PdfFilterIgnoresCase` shows case does not matter |
| PineconeIngest.PdfFilterIgnoresCase | util/pincone_ingest.py:34 | a name and its lower-cased form are both taken or both skipped |
| PineconeIngest.IngestFile | util/pincone_ingest.py:33-59 | a file is skipped exactly when its lower-cased name does not end in ".pdf" |
| PineconeIngest.IngestUpsertsAllRecords | util/pincone_ingest.py:54-59 | a PDF's records reach the index whole and in order, at most 50 per call |
| PineconeIngest.PdfFilterSeesName | util/pincone_ingest.py:67-70 | joining a name to the data folder does not change whether it is taken for a PDF |
| PineconeIngest.JoinDataFolder | util/pincone_ingest.py:69 | a relative name joins to `./data/` followed by the name |
| PineconeIngest.Pass | util/pincone_ingest.py:66-73 | every name without the "_" prefix is ingested and renamed to "_" + name, non-PDFs included, and nothing else is done; the order is stated by `PineconeIngest.PassInOrder` |
| PineconeIngest.PassAppend | util/pincone_ingest.py:67-73 | the loop handles the names one at a time: the pass over two listings in a row is the first pass followed by the second |
| PineconeIngest.PassInOrder | util/pincone_ingest.py:67-73 | files are handled in listing order; each unmarked file is ingested, then at once renamed, after everything done for the names before it and before anything done for the names after it |
| PineconeIngest.PassRaising | util/pincone_ingest.py:66-73 | with no `try` in the loop: the pass completes exactly when no unmarked name raises, and then does what `Pass` does; otherwise it ends on a raising, unmarked name whose ingestion was the last action |
| PineconeIngest.PassRaisingStopsAtFirst | util/pincone_ingest.py:66-73 | when the k-th name is the first unmarked one that raises, the actions are a clean pass over the names before it plus the start of its ingestion: it is never renamed and later names are untouched |
| PineconeIngest.StoppedFileIngestedAgain | util/pincone_ingest.py:67-70 | the file whose ingestion raised keeps its name, so the next pass ingests it again |
| PineconeIngest.MarkedIsMarked | util/pincone_ingest.py:71 | every name after the pass carries the "_" prefix |
| PineconeIngest.PassSkipsMarked | util/pincone_ingest.py:68 | a listing of "_" names is left alone |
| PineconeIngest.SecondPassDoesNothing | util/pincone_ingest.py:67-73 | a second pass over the folder the first left behind, in any order, does nothing |
| AiAssistant.AssistCode | ai_assistant.py:7-32 | missing or blank code for a code-requiring scenario only sets the console; a blank prompt is reported only after the code check passes; otherwise the panel shows the placeholder and the worker gets the lower-cased language, "" or the editor's code, the prompt and the scenario |
| AiAssistant.UpdateResponse | ai_assistant.py:34-39 | the panel always ends with the latest response; the placeholder gives way to text starting with the header, and any other text is kept in front |
| AiAssistant.Append | ai_assistant.py:39 | `append` keeps the old text in front and the new text last, with exactly one line break between them, and only when there was text before |
| AiAssistant.HeaderFirstNotPlaceholder | ai_assistant.py:36 | once the header is shown, the panel is no longer the placeholder |
| AiAssistant.StreamAfterHeader | ai_assistant.py:34-39 | after the header, each further response is appended as its own paragraph |
| AiAssistant.Stream | ai_assistant.py:34-39 | after any non-empty stream of responses the panel ends with the latest one |
| AiAssistant.StreamFromPlaceholder | ai_assistant.py:34-39 | starting from the placeholder, a stream of responses shows the header and the responses joined by newlines |
| AiAssistant.StreamShowsAllResponses | ai_assistant.py:27-39 | after a request that started the worker, the panel shows the header and every streamed response in order (for a backend that streams; the shipped one cannot, see `AiAssistant.ShippedRequestShowsOnlyError`) |
| AiAssistant.WorkerSignals | worker.py:15-22 | one result signal per chunk in order, then at most one error signal with the matching message prefix |
| AiAssistant.Results | worker.py:17-18 | one result signal per chunk, in order |
| AiAssistant.DeliverResults | ai_assistant.py:34-39 | delivering result signals is streaming their texts |
| AiAssistant.Deliver | ai_assistant.py:34-42 | the last signal decides the panel's end: an error leaves only its message, a result is the panel's last text |
| AiAssistant.DeliverFromPlaceholder | worker.py:15-22 | a failing worker leaves only its error text, since `update_ai_error` replaces the whole panel; a successful one the header and all chunks; a silent one the placeholder; with the shipped backend only the first case occurs |
| AiAssistant.UpdateError | ai_assistant.py:41-42 | the error message replaces whatever the panel held, so what came before is lost; `AiAssistant.DeliverFromPlaceholder` shows what that means at the end of a request |
| AiAssistant.RequestOutcome | ai_assistant.py:27-42 | the panel at the end of a request that started the worker, for each way the worker can end |
| AiAssistant.ShippedRequestShowsOnlyError | worker.py:15-22 | the backend the IDE passes has no `process_query_stream`, so every request that starts a worker ends with "⚠️ An unexpected error occurred: 'CodeBuddyConsole' object has no attribute 'process_query_stream'" alone in the panel, and the response header never appears |
| Explorer.SelectDirectory | explorer_sidebar.py:40-44 | a cancelled dialog changes nothing; a chosen directory becomes current and the tree root; files and editor are untouched |
| Explorer.OpenFile | explorer_sidebar.py:46-53 | only an existing regular file is loaded, into the editor's text, path and tab title; what that means for a caller is stated by `Explorer.OpenFileIdempotent` and `Explorer.OpenAfterCreate` |
| Explorer.OpenFileIdempotent | explorer_sidebar.py:46-53 | opening the file already open changes nothing |
| Explorer.OpenAfterCreate | explorer_sidebar.py:46-92 | a file just created from the dialog opens empty, at its path, under the name typed |
| Explorer.Create | explorer_sidebar.py:75-126 | `create_file` and `create_folder`: an empty name or an existing path gives its warning and changes nothing; otherwise exactly the new empty file or directory is added and the tree is rooted at the directory; a new file also becomes the editor's path and tab title, a folder leaves the editor alone |
| Explorer.NewEntry | explorer_sidebar.py:55-58 | with no directory selected, a warning and nothing else |
| Explorer.Presses | explorer_sidebar.py:69-92 | the modal loop shows at most one warning per name submitted, each an empty-name or already-exists warning of the dialog's kind, and never changes the current directory or the editor's text |
| Explorer.WarningText | explorer_sidebar.py:57-121 | the text of each warning box; `Explorer.WarningTextsDistinct` shows no two warnings look alike |
| Explorer.WarningTextsDistinct | explorer_sidebar.py:57-121 | distinct warnings show distinct messages |
| Explorer.NoDirectoryNoChange | explorer_sidebar.py:94-97 | with no directory selected, a new folder creates nothing and warns once |
| Explorer.PressesAllRefused | explorer_sidebar.py:75-83 | while every name is refused, each press warns and nothing changes |
| Explorer.PressesFirstAccepted | explorer_sidebar.py:75-92 | the first acceptable name adds exactly its entry, after one warning per refused name before it |
| Explorer.PressesKeepEntries | explorer_sidebar.py:80-85 | no press removes or rewrites an existing entry |
| Explorer.NewEntryNeverOverwrites | explorer_sidebar.py:80-83 | a dialog session never removes or rewrites an existing entry |
| Explorer.PressesAtMostOne | explorer_sidebar.py:85-87 | the presses add at most one entry, at a path that did not exist |
| Explorer.NewEntryAddsAtMostOne | explorer_sidebar.py:55-92 | a dialog session leaves the files as they were or adds one new entry |
| Explorer.NewFileTabShowsName | explorer_sidebar.py:80-92 | the new file's tab shows the name typed |
| Editor.Rules | editor.py:14-22 | the rule table holds the nine keywords in order, all with the one blue format |
| Editor.RulesFor | editor.py:17-22 | one rule per keyword, in order, all with the keyword format |
| Editor.NewCodeEditor | editor.py:6-11 | a new editor has no file path and nine keyword rules sharing one format |
| Editor.KeywordsAreWords | editor.py:17 | every keyword is non-empty and consists of word characters |
| Editor.NoBoundaryInsideMatch | editor.py:21 | no second match of a keyword starts inside a match of it |
| Editor.GlobalMatch | editor.py:26-27 | every reported start is a whole-word match; the matches are in order and do not overlap; every whole-word occurrence is reported |
| Editor.SetFormat | editor.py:29 | `setFormat` keeps the block's length |
| Editor.Paint | editor.py:25-29 | painting keeps the block's length |
| Editor.PaintUniform | editor.py:25-29 | after painting with spans of one format, a character has that format exactly when some span covers it |
| Editor.RuleSpans | editor.py:25-29 | one rule formats exactly its keyword's whole-word occurrences, each span starting at the match and as long as the keyword |
| Editor.KeywordSpans | editor.py:25-29 | every span covers a whole-word keyword occurrence, and every such occurrence is covered |
| Editor.HighlightWith | editor.py:24-29 | the text is unchanged; a character is coloured exactly when a whole-word keyword occurrence covers it |
| Editor.HighlightBlock | editor.py:24-29 | with the editor's nine keywords: the text is unchanged, only the keyword colour is applied, and a character is coloured exactly when a keyword occurs as a whole word over it |
| Editor.WholeWordInLetters | editor.py:21 | in a word made only of letters, a whole-word match is the whole word |
| Editor.NoKeywordInsideWord | editor.py:21 | a word that is not a keyword has no character highlighted, so "int" inside "integer" is not coloured |

## Left out

- CompileRun.Invoke: `mkdtemp` failure, a failure of the compiler's stderr to decode, and `universal_newlines` decoding are not modelled. Process outputs arrive as already-decoded strings.
- CompileRun.Invoke: the cleanup is an effect in the trace. A failure of `shutil.rmtree` is only printed by the source and does not change the result, so it is not modelled.
- CompileRun.RunStage: the probe's timing is an oracle field (`streamReady`, `exitedInTime`), not a clock. Process lifetimes and pipe contents are not modelled. Neither is the fact that the first process keeps running.
- Compiler.CompileAndRun: a failure of `TemporaryDirectory` to create or remove the directory is not modelled. Process output arrives as already-decoded strings, so a `.decode()` failure, which the source reports as "⚠️ Error occurred", is not modelled.
- PyStr.Lower: only ASCII letters are lower-cased. Python's Unicode case mapping is not modelled.
- Editor.GlobalMatch: which characters are word characters for `\b` is a parameter. The rest of the Qt regular-expression engine is not modelled, and neither is Qt's rich-text block splitting.
- Explorer.Create: failures of `open` and `os.mkdir`, such as permissions or a missing parent directory, are not modelled. `os.path.exists` is membership in the path map.
- Explorer.OpenFile: read errors and text-mode newline translation are not modelled: the editor receives the stored content as it is. The editor is always present, because the IDE never closes its last tab.
- PineconeIngest.Pass: the order of `os.listdir` is an input, and ingestion is taken not to raise; `PineconeIngest.PassRaising` models the raising case. Rename failures, the endless `while True` loop and the ten-second sleep are not modelled.
- PineconeIngest.IngestFile: PDF loading, the recursive text splitter, uuid generation and embedding are inputs. The batch-progress `print` is not modelled.
- SqliteStore.EmbedPdf, ChromaStore.EmbedPdf: the embedding model is a function parameter. Database connections and exceptions from the model or the store are not modelled.
- Cosine-similarity ranking in `search_pdf` of only_sqlit.py is not modelled: it is floating-point arithmetic over opaque vectors.
- AiAssistant.Append: the panel is a rich-text `QTextEdit`, but responses, chunks and error messages are taken to be plain text that `toPlainText()` returns unchanged. A chunk that Qt guesses to be HTML (`Qt::mightBeRichText`, e.g. a first line with `<b>` or `#include <map>`) is not modelled, and neither is the conversion of "\r\n", "\r" and U+00A0 on reading back. The exact panel texts of `AiAssistant.StreamFromPlaceholder`, `AiAssistant.StreamShowsAllResponses`, `AiAssistant.DeliverFromPlaceholder` and `AiAssistant.RequestOutcome` hold for such plain text only.
- AiAssistant.RequestOutcome: the LLM stream is an input list of chunks and an optional failure. Chunks can only arrive from a backend that has `process_query_stream`; the `CodeBuddyConsole` of main.py, which the IDE passes, does not, so with the code as shipped only the failure case is reached (`AiAssistant.ShippedRequestShowsOnlyError` and the second Findings row). The threading between the worker and the Qt slots is not modelled: signals are delivered in emission order.
- Module-level script code, UI layout, dialogs' widgets, main.py, prompts.py, ide.py and code_editor.py are not part of this model, beyond the one fact that the backend ide.py hands the worker is main.py's `CodeBuddyConsole`, which defines `process_query` only.

## Findings

| source | as written | input that shows it | evidently intended | confidence | as-written member | corrected member |
|---|---|---|---|---|---|---|
| compile_run.py:57-66 | On POSIX, a non-empty `select` result (stdout or stderr readable within 2 s) sends the program to the input dialog and a second run. A silent program is drained with `communicate()`. This is the reverse of the win32 branch, where finishing in time means no input. | A C program that prints `hello` and exits at once on Linux: its stdout is readable, so the dialog appears and the program is compiled once and started twice (`CompileRun.HelloProgramAsWritten`). | Ask for input only when the program showed no sign of life within the window: no output on POSIX, a timeout on win32. A program that printed and exited keeps its first result (`CompileRun.IntendedFinishedNotAsked`). This is inferred from the win32 branch, not documented, and it has its own cost: a program that flushes an input prompt before blocking (a Python `input("…")`) makes its pipe readable, so the corrected probe drains it and it reads end-of-file. | medium, not executed | CompileRun.CompileAndRun | CompileRun.CompileAndRunIntended |
| worker.py:17 | The worker iterates `self.code_buddy.process_query_stream(...)`, but the object it is given (ide.py:24, ai_assistant.py:29) is a `CodeBuddyConsole`, whose class in main.py defines only `process_query`. The attribute lookup raises `AttributeError` before any chunk, and the generic `except` turns it into the error signal. | Any request with code and a prompt: the panel goes from the placeholder straight to "⚠️ An unexpected error occurred: 'CodeBuddyConsole' object has no attribute 'process_query_stream'" (`AiAssistant.ShippedRequestShowsOnlyError`). | A backend whose `process_query_stream` yields the answer in chunks, each shown as it arrives under the response header (`AiAssistant.RequestOutcome`, `AiAssistant.StreamShowsAllResponses`). | high, not executed | AiAssistant.ShippedRequestShowsOnlyError | AiAssistant.RequestOutcome |
