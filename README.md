# AI Meeting Summary — a verified model of its core

AI-Meeting-Summary-GUI turns a recorded meeting into a summary. It extracts the audio track
with ffmpeg, transcribes it with Whisper, and can attribute speakers with a pyannote
diarization table. It then sends the transcript, a dictionary text and a prompt file to a local
Ollama model and writes the reply as Markdown. A separate realtime tool transcribes the
microphone block by block.

This Dafny project models the parts of that pipeline that decide what happens. The engines
themselves are not modelled.

- **Speaker attribution** (`Diarize`, `DiarizeFacts`). `assign_word_speakers` is a method that
  updates a `Transcript` object's `segments` in place. It is proved against the function `Fuse`
  and against the exact sequence of progress values handed to the callback. The lemmas beside
  it cover these points:
  - the chosen speaker has the largest summed overlap;
  - a unit gets a speaker exactly when some row overlaps it positively;
  - only `speaker` keys change;
  - fusing twice is the same as fusing once;
  - an empty table changes nothing;
  - progress never decreases, stays within [0, 100] and ends at 100.
- **Realtime loop** (`Realtime`, `RealtimeFacts`). The `ASRApp` object is a class. Its loop
  consumes a finite script of steps, where each step says what one device read returned and
  what `process_iter` answered. The lemmas cover three things:
  - the call protocol: every read is followed by insert and then process, unless one of those
    calls raised and ended the loop;
  - the inserted blocks are the scripted blocks, in order;
  - the printed text, including the newline after a complete sentence.
- **Prompt lists and summary requests** (`Prompts`, `GradioApp`, `App`): `LANGUAGE_MAP`, the
  `.json` filter, the stems, the Gradio app's default-prompt-first order and the paths both apps
  build. Selecting an offered prompt name reads back exactly the listed file, for entries with a
  character other than a dot before `.json`; an entry named `.json` is offered under its whole
  name and reads `.json.json` instead.
- **Summarizer** (`OllamaBot`):
  - the meeting text;
  - the combined prompt, read back line by line;
  - the `done` check on the reply, and the exceptions of the chat call and of a reply without content;
  - the Markdown content;
  - reading the saved segments;
  - listing the installed models.
- **Audio extraction** (`FfmpegProgress`, `OnlineExtractor`, `QtExtractor`):
  - the ffmpeg command;
  - the `time=(\d+):(\d+):(\d+\.\d+)` search: a reported time is read from the leftmost
    occurrence of the pattern, with maximal digit runs;
  - the truncated percentage, including the `ZeroDivisionError` of a zero duration;
  - the web version's callback with its final 100;
  - the Qt thread's emitted signal values, without a final 100.
- **Path helpers** (`PathUtil`): Python's POSIX `os.path.join`, `basename` and `splitext`, with
  the rule that a name which is only dots before its extension has no extension.

Foreign calls are parameters of the model: ffprobe's duration or its error, ffmpeg's stderr
lines or the error starting it, the recognition result, the diarization table, the prompt file's
content, the chat reply or its error, the model listing, `generate_summary`, and for the realtime
tool which setup call raises and what each device read and processing step returned or raised. Times and overlaps are `real`. Python's `int()` on a
float is truncation toward zero (`Common.TruncToInt`).

## Model

| member | source | states |
|---|---|---|
| `Diarize.Intersection` | whisper/diarize.py:85 | the overlap column is positive exactly when both spans are proper and they overlap; it is never longer than either span |
| `Diarize.Positive` | whisper/diarize.py:89 | reference definition of `dia_tmp` without `fill_nearest`: the rows overlapping the unit positively, in table order; `PositiveKeepsOverlapping` characterises it |
| `Diarize.SpeakerSum` | whisper/diarize.py:93 | reference definition of one speaker's group sum of overlaps; used by `BestSpeakerIsMaximal` and `FilterThenSumIsClampThenSum` |
| `Diarize.BestSpeaker` | whisper/diarize.py:93 | reference definition of `sort_values(ascending=False).index[0]`, taking the earliest label on a tie; its maximality is `BestSpeakerIsMaximal` |
| `Diarize.PositiveKeepsOverlapping` | whisper/diarize.py:89 | the filtered table holds exactly the rows whose overlap is positive |
| `Diarize.BestSpeakerIsMaximal` | whisper/diarize.py:93 | the speaker taken from the sorted group sums is one of the labels, and no label has a larger sum |
| `Diarize.Choose` | whisper/diarize.py:88-93 | a speaker is chosen exactly when `dia_tmp` is non-empty |
| `Diarize.FuseWord` | whisper/diarize.py:105-115 | reference definition of one word's visit: a word without `start` is unchanged, a timed one is assigned for its own span |
| `Diarize.FuseSegment` | whisper/diarize.py:84-115 | reference definition of one segment's visit: its speaker for its span, then its words when it has a `words` key |
| `Diarize.Fuse` | whisper/diarize.py:79-115 | the fused transcript has one segment per input segment, each the visit of the segment at the same position |
| `Diarize.SegmentStart` | whisper/diarize.py:82 | reference definition of `(i / total_segments) * 100`; its bounds and steps are `SegmentStartStep` |
| `Diarize.WordStep` | whisper/diarize.py:102-103 | reference definition of a word's progress value; its bounds are `WordStepBounds` |
| `Diarize.ProgressReports` | whisper/diarize.py:79-118 | reference definition of all callback values: each segment's start and word values in order, then 100; `ProgressMonotone` states their order and range |
| `Diarize.Transcript.constructor` | whisper/diarize.py:75-76 | the transcript object holds exactly the given segments |
| `Diarize.AssignWordSpeakers` | whisper/diarize.py:75-120 | afterwards the transcript's segments are `Fuse` of the old ones, the same object is returned, and the callback received the per-segment and per-word values and then 100 |
| `Diarize.VisitSegment` | whisper/diarize.py:79-115 | one segment iteration yields the fused segment and exactly that segment's progress values |
| `Diarize.VisitWordList` | whisper/diarize.py:97-115 | without a `words` key nothing is visited or reported; with one, every word is fused and reported |
| `Diarize.VisitWords` | whisper/diarize.py:99-115 | the word loop yields the fused word list and one progress value per word |
| `Diarize.ReportWord` | whisper/diarize.py:101-103 | word `j` adds its progress value only when a callback is given |
| `Diarize.VisitWord` | whisper/diarize.py:105-115 | a word with a `start` gets the speaker chosen for its span; a word without one is left as it is |
| `Diarize.AssignSpeaker` | whisper/diarize.py:88-94 | the `speaker` key is overwritten when a candidate exists and kept otherwise |
| `DiarizeFacts.ChooseIsMaximal` | whisper/diarize.py:88-94 | the chosen speaker labels some candidate row, and no candidate's speaker has a larger group sum |
| `DiarizeFacts.AssignedIffPositiveOverlap` | whisper/diarize.py:85-92 | without `fill_nearest`, a unit is assigned if and only if some row overlaps it positively |
| `DiarizeFacts.UnassignedUnitKeepsSpeaker` | whisper/diarize.py:92-94 | a unit that no row overlaps keeps its previous speaker |
| `DiarizeFacts.FilterThenSumIsClampThenSum` | whisper/diarize.py:89-93 | summing over the positive rows equals summing the overlaps clamped at zero over the whole table |
| `DiarizeFacts.ChosenSpeakerMaximizesOverlap` | whisper/diarize.py:88-94 | without `fill_nearest`, the assigned speaker has positive total overlap and no speaker, listed or not, has more |
| `DiarizeFacts.FillNearestAlwaysAssigns` | whisper/diarize.py:90-94 | with `fill_nearest` and a non-empty table every unit gets one of the table's speakers |
| `DiarizeFacts.SoleOverlappingSpeakerWins` | whisper/diarize.py:88-94 | when all positive overlaps belong to speaker `k`, `k` is chosen |
| `DiarizeFacts.TwoSpeakerExample` | whisper/diarize.py:85-94 | with turns A [0,5] and B [5,10], a unit over [2,6] gets A and one over [6,9] gets B |
| `DiarizeFacts.EmptyTableAssignsNothing` | whisper/diarize.py:92 | an empty table assigns no speaker, with or without `fill_nearest` |
| `DiarizeFacts.FuseChangesOnlySpeakers` | whisper/diarize.py:75-120 | segment and word counts, order, texts, times and `words` presence are unchanged |
| `DiarizeFacts.UntimedWordUnchanged` | whisper/diarize.py:105 | a word without `start` is returned exactly as it was |
| `DiarizeFacts.WordsIndependentOfSegment` | whisper/diarize.py:97-115 | the words' speakers depend neither on the segment's times nor on its assigned speaker |
| `DiarizeFacts.SegmentIndependentOfWords` | whisper/diarize.py:84-94 | the segment's speaker does not depend on its words |
| `DiarizeFacts.AssignUnitIdempotent` | whisper/diarize.py:92-94 | assigning a unit twice with the same table gives the same speaker as once |
| `DiarizeFacts.FuseIdempotent` | whisper/diarize.py:75-120 | running the fuser again on its own output changes nothing |
| `DiarizeFacts.EmptyTableLeavesTranscript` | whisper/diarize.py:75-120 | an empty table leaves the whole transcript unchanged |
| `DiarizeFacts.SegmentStartStep` | whisper/diarize.py:82 | consecutive segment starts are `100 / total_segments` apart, from 0 to exactly 100 |
| `DiarizeFacts.SegmentStartMonotone` | whisper/diarize.py:82 | later segments start at a larger or equal percentage |
| `DiarizeFacts.WordStepBounds` | whisper/diarize.py:102-103 | a word's value lies in [start of its segment, start of the next segment) |
| `DiarizeFacts.WordStepMonotone` | whisper/diarize.py:102-103 | within a segment, later words report larger or equal values |
| `DiarizeFacts.SegmentReportsFacts` | whisper/diarize.py:81-103 | one segment's values are sorted and lie between its start and the next segment's start |
| `DiarizeFacts.ReportsUpToFacts` | whisper/diarize.py:79-103 | the values of the first `k` segments are sorted and lie in [0, start of segment k] |
| `DiarizeFacts.ProgressMonotone` | whisper/diarize.py:79-118 | all callback values are sorted, lie in [0, 100] and end with 100; with no segments 100 is the only value |
| `Realtime.ChunkSize` | realtime_transcription.py:30-32 | the block size is the sample count truncated toward zero |
| `Realtime.EndsSentence` | realtime_transcription.py:55 | reference definition: the text ends with `.`, `?` or `!` |
| `Realtime.Terminate` | realtime_transcription.py:55-56 | reference definition of the printed fragment; `TerminateKeepsText` states its shape |
| `Realtime.Emission` | realtime_transcription.py:51-59 | reference definition: nothing for a result whose first element is None, the terminated text otherwise |
| `Realtime.RunTrace` | realtime_transcription.py:43-63 | reference definition of the loop over the script: each step's calls and printed text, up to and including the first step that raises |
| `Realtime.Zeros` | realtime_transcription.py:35 | the warm-up input is `n` zero samples |
| `Realtime.FailureEndsRun` | realtime_transcription.py:43-63 | once a step raises, later steps of the script have no effect |
| `Realtime.AsrApp.constructor` | realtime_transcription.py:12-18 | the five settings start as tiny, Microphone, zh, transcribe and DEBUG |
| `Realtime.AsrApp.CreateArgs` | realtime_transcription.py:71-89 | each configuration field has the fixed value or the app setting the source assigns |
| `Realtime.AsrApp.StopAsr` | realtime_transcription.py:65-69 | an existing stream is stopped and closed and "ASR stopped." is printed; without a stream nothing happens |
| `Realtime.AsrApp.ProcessAudio` | realtime_transcription.py:42-63 | without a stream nothing is called or printed; otherwise the calls and printed lines are those of the script's run up to the first failure, and a failure then stops the stream |
| `Realtime.AsrApp.Loop` | realtime_transcription.py:45-59 | the loop makes exactly the calls and prints exactly the lines of the script's run, and reports whether it ended by an exception |
| `Realtime.AsrApp.Turn` | realtime_transcription.py:46-59 | one pass reads, inserts and processes, stopping after the call that raises, and prints the committed text only when nothing raised |
| `Realtime.AsrApp.StartAsr` | realtime_transcription.py:20-40 | the configuration is always stored; a raising `asr_factory` leaves everything else unchanged; a raising warm-up or `InputStream` leaves the old stream; a raising `start` leaves an inactive 12800-sample stream; otherwise the warm-up is one second of silence and the stream is opened, started and run |
| `RealtimeFacts.TerminateKeepsText` | realtime_transcription.py:55-56 | the printed text is the recognized text plus one newline exactly when it ends with `.`, `?` or `!` |
| `RealtimeFacts.SentenceExamples` | realtime_transcription.py:55-59 | concrete sentence and non-sentence texts get and do not get the newline |
| `RealtimeFacts.NoneResultPrintsNothing` | realtime_transcription.py:51 | a result whose first element is None prints nothing |
| `RealtimeFacts.CommittedResultPrintsText` | realtime_transcription.py:51-59 | a committed result reached before any failure prints its text with the sentence rule applied |
| `RealtimeFacts.RunFollowsProtocol` | realtime_transcription.py:45-49 | every read uses the stream's block size; each insert follows its read and is followed by one process, unless the insert raised last; a run without failure ends with a completed turn |
| `RealtimeFacts.BlocksInsertedInScriptOrder` | realtime_transcription.py:45-49 | when no step fails, there are three calls per step and the inserted blocks are the scripted blocks in order |
| `RealtimeFacts.DefaultChunkSize` | realtime_transcription.py:30-32 | with the configured 0.8 s chunks the block size is 12800 samples |
| `Prompts.LanguageCode` | gradio_app.py:15-19 | the three display names map to ja, zh and en; any other name falls back to en |
| `Prompts.PromptPath` | gradio_app.py:94 | reference definition of the f-string `prompt/<code>/<name>.json`; `PromptPathInFolder` relates it to the listed folder |
| `Prompts.Stems` | gradio_app.py:128 | one stem per entry, each the stem of the entry at the same position |
| `Prompts.JsonFiles` | gradio_app.py:120 | the kept entries are exactly the listing entries ending in `.json` |
| `Prompts.JsonFilesAppend` | gradio_app.py:120 | the filter keeps listing order |
| `Prompts.JsonFilesDistinct` | gradio_app.py:120 | a listing without repeats gives `.json` names without repeats |
| `Prompts.JsonStem` | gradio_app.py:125-128 | a `.json` entry's stem drops the `.json`, unless only dots precede it |
| `Prompts.PromptPathInFolder` | gradio_app.py:94-108 | the f-string prompt path is the `<name>.json` entry inside `os.path.join("prompt", code)` |
| `Prompts.SelectedNameReadsListedFile` | gradio_app.py:94-128 | for an entry with a character other than a dot before `.json`, choosing it by its shown name reads back exactly that file |
| `Prompts.BareJsonEntryMisreads` | gradio_app.py:94-128 | an entry named exactly `.json` is shown under its whole name, so choosing it reads `prompt/<code>/.json.json`, not the listed file |
| `GradioApp.Without` | gradio_app.py:128 | the remaining entries are exactly those different from the default prompt |
| `GradioApp.DefaultPromptFile` | gradio_app.py:111-123 | reference definition of `default_prompts.get(language)`; `DefaultPromptExists` states what it gives |
| `GradioApp.OrderedPrompts` | gradio_app.py:122-128 | reference definition of the list before the fallback: the default's stem if listed, then the other entries' stems |
| `GradioApp.DefaultPromptExists` | gradio_app.py:110-115 | every language code the app produces has a default prompt, and it is a proper `<name>.json` name |
| `GradioApp.StemsOfJsonNamesDiffer` | gradio_app.py:125-128 | two different `.json` entries, one of them proper, have different stems |
| `GradioApp.DefaultOnlyFirst` | gradio_app.py:122-128 | a listed default prompt heads the list, and its name appears nowhere else |
| `GradioApp.OrderedPromptsNonEmpty` | gradio_app.py:117-130 | a non-empty `.json` listing never falls back to "No prompts available" |
| `GradioApp.LoadPrompts` | gradio_app.py:105-130 | missing folder or no `.json` entry gives the placeholder; otherwise the stems with the default first and only once, the rest in listing order |
| `GradioApp.PromptsAreStemsOfOrderedFiles` | gradio_app.py:122-128 | the shown list is the stems of the reordered entries |
| `GradioApp.DefaultFirstIsReordering` | gradio_app.py:120-128 | without repeated names, the shown entries are a permutation of all `.json` entries |
| `GradioApp.NoDefaultKeepsListingOrder` | gradio_app.py:122-128 | when the default prompt is not listed, the list is in listing order |
| `GradioApp.SummaryJobFor` | gradio_app.py:93-100 | the prompt, transcription and summary paths passed to `generate_summary` |
| `GradioApp.TextSummary` | gradio_app.py:89-103 | no video gives "No video selected"; otherwise the generated file, or "Error: " and the message |
| `GradioApp.VideoName` | gradio_app.py:93 | reference definition of `os.path.splitext(os.path.basename(video_file))[0]`; `PlainVideoName` states what it gives |
| `GradioApp.PlainVideoName` | gradio_app.py:93 | a video file `<name>.<ext>` in any directory (or none) gives the video name `<name>`, when `name` has a character other than a dot and `ext` no dot |
| `GradioApp.ResultPath` | gradio_app.py:95-96 | joining `result`, a plain name and a file gives `result/<name>/<file>` |
| `GradioApp.SummaryPathsForPlainName` | gradio_app.py:93-96 | for a video file `<name>.<ext>` in any directory, both files sit in `result/<name>/` |
| `App.LoadPrompts` | app.py:63-72 | missing folder or no `.json` entry gives the placeholder; otherwise one stem per `.json` entry, in listing order |
| `App.OfferedNamesReadTheirFiles` | app.py:52-72 | with plain entry names, each offered name's prompt path is the listed file it came from |
| `App.TextSummaryJob` | app.py:52-58 | the job keeps the given transcription file, model and language and writes to `result/meeting_summary.json` |
| `App.TextSummary` | app.py:52-61 | the generated file, or "Error: " and the message |
| `App.TranscriptionFile` | app.py:44 | the transcription is saved as `result/transcription.json` |
| `App.Speech2Text` | app.py:27-50 | any failing step gives "Error: " and no file; diarization is applied only when a token is given, and its failure is an error too |
| `App.SavedTranscriptKeepsRecognition` | app.py:37-44 | a saved transcript is the recognized one with at most speakers changed, and exactly the recognized one without a token |
| `OllamaBot.SplitJoinRoundTrip` | summary/ollama_bot.py:63 | joining newline-free texts with `\n` and splitting gives them back |
| `OllamaBot.MeetingText` | summary/ollama_bot.py:63 | reference definition of the `\n`-joined segment texts; `MeetingTextLines` reads it back |
| `OllamaBot.MeetingTextLines` | summary/ollama_bot.py:63 | with newline-free texts, the meeting text's lines are the segment texts in order |
| `OllamaBot.CombinedPrompt` | summary/ollama_bot.py:66-71 | reference definition of the f-string message; `CombinedPromptLines` reads it back |
| `OllamaBot.CombinedPromptLines` | summary/ollama_bot.py:66-71 | split into lines, the combined prompt is the lines of its four parts followed by an empty remainder |
| `OllamaBot.CombinedPromptOfPlainParts` | summary/ollama_bot.py:63-71 | with single-line parts, the lines are the segment texts, the dictionary, the system prompt, the user prompt and "" |
| `OllamaBot.SummarizeMeeting` | summary/ollama_bot.py:55-89 | no or empty prompt data sends nothing; otherwise one request with the combined prompt, 10240 context and -1 predict; a raising chat call raises, a reply not `done` gives None, a `done` reply gives its content or raises `KeyError` without one |
| `OllamaBot.NoPromptNoRequest` | summary/ollama_bot.py:58-61 | a request is sent if and only if non-empty prompt data was read |
| `OllamaBot.SummaryIsReplyContent` | summary/ollama_bot.py:76-89 | a summary is returned exactly when a request was sent and answered `done` with content, and it is that content |
| `OllamaBot.MarkdownContent` | summary/ollama_bot.py:91-94 | the file starts with the header followed by the summary; a missing summary raises |
| `OllamaBot.MarkdownKeepsSummary` | summary/ollama_bot.py:93-94 | removing the header gives the summary back |
| `OllamaBot.LoadSegments` | summary/ollama_bot.py:26-39 | a missing or unreadable file gives None; a document gives its segments, or [] without the field |
| `OllamaBot.MissingSegmentsReadAsEmpty` | summary/ollama_bot.py:35 | a document without "segments" reads like one with an empty list |
| `OllamaBot.PopulateSumModel` | summary/ollama_bot.py:103-114 | the names are listed exactly when the listing succeeds, has "models" and every entry has a name; they come in listing order |
| `OllamaBot.Names` | summary/ollama_bot.py:108 | one name per entry in order, or None as soon as one entry has no name |
| `OllamaBot.ModelChoices` | app.py:76 | the drop-down offers the listed names, or the single placeholder "None" when there are none |
| `OllamaBot.NoModelsOfferPlaceholder` | app.py:76 | an empty listing and a failed one offer the same placeholder |
| `FfmpegProgress.Command` | online/ffmpeg_audio_extractor.py:20-27 | the nine-word ffmpeg command: `ffmpeg -i <video> -q:a 0 -map a <audio> -y` |
| `FfmpegProgress.DigitSpan` | online/ffmpeg_audio_extractor.py:34 | `\d+` takes the longest run of leading digits |
| `FfmpegProgress.Field` | online/ffmpeg_audio_extractor.py:34 | a field found is a non-empty digit run, and the text is that run, the separator and the remainder |
| `FfmpegProgress.MatchHere` | online/ffmpeg_audio_extractor.py:34 | reference definition of the pattern anchored at one position; `MatchHereIsPattern` and `MatchHereOfPattern` characterise it |
| `FfmpegProgress.MatchHereIsPattern` | online/ffmpeg_audio_extractor.py:34 | a match's four groups are non-empty digit runs and spell `time=hh:mm:ss.ff` at the start of the text, with no digit right after `ff` |
| `FfmpegProgress.MatchHereOfPattern` | online/ffmpeg_audio_extractor.py:34 | conversely, `time=hh:mm:ss.ff` with non-empty digit runs, followed by anything but a digit, matches with exactly those groups |
| `FfmpegProgress.Search` | online/ffmpeg_audio_extractor.py:34 | reference definition of `re.search`: the first position where the anchored pattern matches |
| `FfmpegProgress.SearchIsLeftmostMatch` | online/ffmpeg_audio_extractor.py:34 | a search result is the match at some position with no match before it; no result means no position matches |
| `FfmpegProgress.Seconds` | online/ffmpeg_audio_extractor.py:36-37 | reference definition of `hours * 3600 + minutes * 60 + seconds` over the groups |
| `FfmpegProgress.ParseTime` | online/ffmpeg_audio_extractor.py:34-37 | reference definition of the time a line reports: the seconds of the search result |
| `FfmpegProgress.ReportedTimeHasPattern` | online/ffmpeg_audio_extractor.py:34-37 | a reported time is the seconds of a well-formed `time=hh:mm:ss.ff` occurrence in the line; a line reporting nothing has no position where the pattern matches |
| `FfmpegProgress.MatchNeedsMarker` | online/ffmpeg_audio_extractor.py:33-34 | a line matching the pattern contains `time=`, so the guard never changes the outcome |
| `FfmpegProgress.NoMarkerNoTime` | online/ffmpeg_audio_extractor.py:33 | a line without `time=` reports nothing |
| `FfmpegProgress.SearchPastPrefix` | online/ffmpeg_audio_extractor.py:34 | text without a `t` before the match does not change what is found |
| `FfmpegProgress.ParseTimeOfProgressLine` | online/ffmpeg_audio_extractor.py:34-37 | a line with `time=hh:mm:ss.ff`, preceded by text without a `t`, reports hh·3600 + mm·60 + ss.ff seconds |
| `FfmpegProgress.StatusLineExample` | online/ffmpeg_audio_extractor.py:33-37 | a typical status line at 00:01:30.50 reports 90.5 seconds |
| `FfmpegProgress.WholeSecondsDoNotMatch` | online/ffmpeg_audio_extractor.py:34 | seconds without a fractional part do not match, so such a line reports nothing |
| `FfmpegProgress.Percent` | online/ffmpeg_audio_extractor.py:38 | a zero duration raises; otherwise the percentage truncated toward zero |
| `FfmpegProgress.PercentBounds` | online/ffmpeg_audio_extractor.py:37-38 | within the duration the percentage is in [0, 100], and 100 only at the very end |
| `FfmpegProgress.PercentMonotone` | online/ffmpeg_audio_extractor.py:38 | later times never give a smaller percentage |
| `FfmpegProgress.PercentNotClamped` | online/ffmpeg_audio_extractor.py:38 | a time beyond the duration reports more than 100 |
| `FfmpegProgress.ScanLine` | online/ffmpeg_audio_extractor.py:33-38 | a line without a time is silent; a line with one gives its percentage or the division error |
| `FfmpegProgress.ReadLine` | online/ffmpeg_audio_extractor.py:33-38 | the guard, the search and the percentage of the loop body give the line's outcome |
| `FfmpegProgress.ScanLines` | online/ffmpeg_audio_extractor.py:32-42 | reference definition of the stderr loop: each line's percentage in order, stopping at the first line that raises |
| `FfmpegProgress.ScanWithinDuration` | online/ffmpeg_audio_extractor.py:32-42 | when every time lies within a positive duration nothing raises and every percentage is in [0, 100] |
| `FfmpegProgress.ZeroDurationRaises` | online/ffmpeg_audio_extractor.py:32-42 | with a zero duration nothing is reported, and the reading raises exactly when some line carries a time |
| `FfmpegProgress.RaisedIsFinal` | online/ffmpeg_audio_extractor.py:32-38 | after a line raises, later lines change nothing |
| `FfmpegProgress.TimelessLinesReportNothing` | online/ffmpeg_audio_extractor.py:32-42 | lines without times report nothing and never raise |
| `Common.TruncToInt` | online/ffmpeg_audio_extractor.py:38 | `int()` of a float truncates toward zero |
| `OnlineExtractor.ExtractAudioFromVideo` | online/ffmpeg_audio_extractor.py:4-50 | a probe error raises before launching; otherwise the command is handed to `Popen`, whose error raises with no report; otherwise the callback gets each percentage and then 100, and a raise stops it; within the duration every value is in [0, 100] and the last is 100 |
| `OnlineExtractor.ReadProgress` | online/ffmpeg_audio_extractor.py:32-42 | the stderr loop reports each line's percentage when a callback is given and stops at the first raise |
| `QtExtractor.AudioExtractorThread.constructor` | qt_processing/ffmpeg_audio_extractor.py:11-14 | the thread keeps both file names and has emitted and launched nothing |
| `QtExtractor.AudioExtractorThread.Run` | qt_processing/ffmpeg_audio_extractor.py:16-39 | a probe error raises before launching; otherwise one command is handed to `Popen`, whose error raises with nothing emitted; otherwise the signal gets each percentage, without a final 100, up to the first raise |
| `PathUtil.Basename` | gradio_app.py:93 | the result has no `/`, ends the path, and is either the whole path or preceded by a `/` |
| `PathUtil.BasenameAfterDir` | gradio_app.py:93 | a file name without `/` after a directory ending in `/` is the base name |
| `PathUtil.SplitExt` | gradio_app.py:93 | the two parts concatenate to the path, and the extension is empty or one dot with no further dot or `/` |
| `PathUtil.SplitExtOfName` | gradio_app.py:93 | `<dir><name>.<ext>` splits before the last dot when `name` has a character other than a dot and `ext` no dot |
| `PathUtil.Stem` | gradio_app.py:93 | reference definition of `os.path.splitext(p)[0]`; `StemOfJsonName` and `SplitExtOfName` state what it gives |
| `PathUtil.StemOfJsonName` | gradio_app.py:125 | an entry `<name>.json` splits into `<name>` and `.json`, unless the name is only dots |
| `PathUtil.BareJsonKeepsName` | gradio_app.py:128 | an entry named exactly `.json` keeps its whole name as its stem |
| `PathUtil.Join` | gradio_app.py:95 | an absolute second part replaces the first; otherwise the result starts with the first part and ends with the second |

## Left out

- The foreign engines are parameters of the model: pyannote, Whisper and faster-whisper, Ollama, sounddevice, ffmpeg and ffprobe. File reading and writing, `os.makedirs` and `shutil.rmtree` are also left out.
- Exceptions are modelled for ffprobe, `subprocess.Popen`, `ollama.chat` and a reply without content, `ollama.list`, reading the transcription and prompt files, `generate_summary` and the recognition and diarization steps. For the realtime tool they are modelled for `asr_factory`, the warm-up `transcribe`, `sd.InputStream` and `stream.start`, and `stream.read`, `insert_audio_chunk` and `process_iter`.
- Exceptions are not modelled for `set_logging`, `np.squeeze`, `process.wait`, the progress callback and the Qt signal, `print`, `stream.stop` and `stream.close`, or the `test.json` dump. Each of these is taken to return normally.
- The Gradio and Qt user interfaces, `QThread` scheduling and signal delivery are not modelled. The realtime loop's `while True` over a live device is modelled as a finite script.
- Floating-point rounding is not modelled: times, overlaps and progress values are exact `real`s.
- Diarize.BestSpeakerIsMaximal: among speakers with equal summed overlap the model takes the first in table order. pandas' `sort_values` leaves that tie unspecified, so only maximality is claimed.
- The `union` column is computed and never read, so it is not modelled.
- A word with `start` but no `end` raises `KeyError` in the source. The model gives a timed word both times.
- Diarize.VisitWord writes an unchanged word back into the list. The source mutates only the word dicts it assigns; the resulting value is the same.
- `\d` is modelled as the ASCII digits only. Python also accepts other Unicode digits.
- `logger`, `set_logging` and console `print` calls other than the realtime loop's output and "ASR stopped." are not modelled.
- A failing ffprobe (`float(result.stdout)` raising) is the `Err` case of the duration parameter.
- Prompt and transcription JSON are reduced to string-valued fields. Non-string values and a top-level value that is not an object are read as an unreadable file.
- The `test.json` dump of the combined prompt inside `summarize_meeting` is not modelled (file output).
- Prompts.SelectedNameReadsListedFile: stated only for entries with a character other than a dot before `.json`. An entry that is only dots before `.json` is offered under its whole name; `Prompts.BareJsonEntryMisreads` shows what `.json` then reads.
- Gradio `speech2text` (status messages and progress bar) is not modelled. Only its path helpers are shared with `text_summary`.
- `save_summary_to_json` does not exist in the source, so it is not modelled.
- The `__main__` block of `summary/ollama_bot.py` passes the language name as the prompt path. It is a script, not part of the core, and is not modelled.
- App.Speech2Text: the diarization step is modelled as `Fuse` with `fill_nearest` false, which is what `run_diarization` passes. Its pipeline call is a parameter.
