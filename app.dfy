/**
 * The first web app: speech to text with diarization only when a token is given, the summary
 * request, and the prompt list (every `.json` entry, in listing order).
 */
module App {
  import opened Common
  import opened PathUtil
  import opened Prompts
  import opened Diarize
  import opened DiarizeFacts

  /**
   * `load_prompts(target_language)` over the folder `prompt/<code>`: one name per `.json` entry,
   * in listing order, or `["No prompts available"]` when the folder is missing or has none.
   */
  function LoadPrompts(targetLanguage: string, folder: Folder): (prompts: seq<string>)
    ensures folder.Missing? ==> prompts == NoPrompts
    ensures folder.Present? && JsonFiles(folder.entries) == [] ==> prompts == NoPrompts
    ensures folder.Present? && JsonFiles(folder.entries) != [] ==>
      var files := JsonFiles(folder.entries);
      |prompts| == |files| && forall i :: 0 <= i < |files| ==> prompts[i] == Stem(files[i])
  {
    match folder
    case Missing => NoPrompts
    case Present(entries) =>
      var names := Stems(JsonFiles(entries));
      if names == [] then NoPrompts else names
  }

  /**
   * Selecting any offered name reads back the `.json` file it came from, inside the language's
   * prompt folder, when each listed name is plain (no `/`, not only dots before `.json`).
   */
  lemma OfferedNamesReadTheirFiles(display: string, entries: seq<string>)
    requires forall f :: f in entries ==> '/' !in f && (IsJsonName(f) ==> HasNonDot(f, 0, |f| - 5))
    requires JsonFiles(entries) != []
    ensures var files := JsonFiles(entries);
      var prompts := LoadPrompts(display, Present(entries));
      && |prompts| == |files|
      && forall i :: 0 <= i < |files| ==> PromptPath(display, prompts[i]) == Join(PromptFolder(display), files[i])
  {
    var files := JsonFiles(entries);
    var prompts := LoadPrompts(display, Present(entries));
    forall i | 0 <= i < |files| ensures PromptPath(display, prompts[i]) == Join(PromptFolder(display), files[i]) {
      assert files[i] in files && prompts[i] == Stem(files[i]);
      SelectedNameReadsListedFile(display, files[i]);
    }
  }

  /** `summary_file = "result/meeting_summary.json"`. */
  const SummaryFile: string := "result/meeting_summary.json"

  /** The job `text_summary` hands to `generate_summary`. */
  function TextSummaryJob(transcriptionFile: string, llmModel: string, targetLanguage: string, selectedPrompt: string): (job: SummaryJob)
    ensures job.transcriptionFile == transcriptionFile && job.model == llmModel && job.language == targetLanguage
    ensures job.promptPath == PromptPath(targetLanguage, selectedPrompt)
    ensures job.outputFile == SummaryFile
  {
    SummaryJob(transcriptionFile, llmModel, targetLanguage, PromptPath(targetLanguage, selectedPrompt), SummaryFile)
  }

  /** `text_summary`: the file `generate_summary` (a parameter here) returns, or its error message. */
  function TextSummary(transcriptionFile: string, llmModel: string, targetLanguage: string, selectedPrompt: string,
                       generate: SummaryJob -> Result<string, string>): (r: (string, Option<string>))
    ensures var outcome := generate(TextSummaryJob(transcriptionFile, llmModel, targetLanguage, selectedPrompt));
      && (outcome.Ok? ==> r == ("Summary generation complete.", Some(outcome.value)))
      && (outcome.Err? ==> r == ("Error: " + outcome.error, None))
  {
    match generate(TextSummaryJob(transcriptionFile, llmModel, targetLanguage, selectedPrompt))
    case Ok(file) => ("Summary generation complete.", Some(file))
    case Err(e) => ("Error: " + e, None)
  }

  /** `os.path.join("result", "transcription.json")`, where `speech2text` saves its result. */
  function TranscriptionFile(): (path: string)
    ensures path == "result/transcription.json"
  {
    var name := "transcription.json";
    assert name[0] == 't';
    JoinRelative("result", name);
    Join("result", name)
  }

  /**
   * The outcome of each foreign step of `speech2text`: audio extraction (an error message or
   * none), speech recognition, and the diarization table (only consulted when a token is given).
   */
  datatype Steps = Steps(extraction: Option<string>, recognition: Result<seq<Segment>, string>,
                         diarization: Result<seq<Row>, string>)

  /** What `speech2text` returns and the transcript it saves, if any. */
  datatype Speech2TextOutcome = Outcome(status: string, file: Option<string>, saved: Option<seq<Segment>>)

  /** `speech2text(video, hf_token, ...)` over the outcomes of its foreign steps. */
  function Speech2Text(hfToken: Option<string>, steps: Steps): (r: Speech2TextOutcome)
    ensures r.file.Some? <==> r.saved.Some?
    ensures r.file.Some? ==> r.status == "Transcription complete." && r.file.value == TranscriptionFile()
    ensures r.file.None? ==> StartsWith(r.status, "Error: ")
    ensures steps.extraction.Some? ==> r == Outcome("Error: " + steps.extraction.value, None, None)
    ensures steps.extraction.None? && steps.recognition.Err? ==> r == Outcome("Error: " + steps.recognition.error, None, None)
    ensures steps.extraction.None? && steps.recognition.Ok? && !Truthy(hfToken) ==>
      r.saved == Some(steps.recognition.value)
    ensures steps.extraction.None? && steps.recognition.Ok? && Truthy(hfToken) ==>
      match steps.diarization
      case Ok(rows) => r.saved == Some(Fuse(steps.recognition.value, rows, false))
      case Err(e) => r == Outcome("Error: " + e, None, None)
  {
    if steps.extraction.Some? then Outcome("Error: " + steps.extraction.value, None, None)
    else match steps.recognition
      case Err(e) => Outcome("Error: " + e, None, None)
      case Ok(transcription) =>
        if !Truthy(hfToken) then Outcome("Transcription complete.", Some(TranscriptionFile()), Some(transcription))
        else match steps.diarization
          case Err(e) => Outcome("Error: " + e, None, None)
          case Ok(rows) => Outcome("Transcription complete.", Some(TranscriptionFile()), Some(Fuse(transcription, rows, false)))
  }

  /**
   * Whatever the token, a saved transcript is the recognized one with at most its speaker fields
   * changed, and without a token it is exactly the recognized one.
   */
  lemma SavedTranscriptKeepsRecognition(hfToken: Option<string>, steps: Steps)
    requires Speech2Text(hfToken, steps).saved.Some?
    ensures steps.recognition.Ok?
    ensures OnlySpeakersDiffer(steps.recognition.value, Speech2Text(hfToken, steps).saved.value)
    ensures !Truthy(hfToken) ==> Speech2Text(hfToken, steps).saved.value == steps.recognition.value
  {
    var segs := steps.recognition.value;
    if Truthy(hfToken) {
      FuseChangesOnlySpeakers(segs, steps.diarization.value, false);
    } else {
      FuseChangesOnlySpeakers(segs, [], false);
      EmptyTableLeavesTranscript(segs, false);
    }
  }
}
