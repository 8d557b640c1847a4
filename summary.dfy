/**
 * The summarizer's side of the meeting: the meeting text sent to the language model, the
 * combined prompt, the reply check, the Markdown file content, reading the saved transcription
 * and listing the installed models.
 */
module OllamaBot {
  import opened Common

  /** One saved transcription segment, as far as the summarizer reads it: its "text" field. */
  datatype TranscriptEntry = Entry(text: Option<string>)

  /** `seg.get("text", "")`. */
  function EntryText(e: TranscriptEntry): string
  {
    if e.text.Some? then e.text.value else ""
  }

  /** `"\n".join(xs)`. */
  function JoinLines(xs: seq<string>): string
  {
    if xs == [] then ""
    else if |xs| == 1 then xs[0]
    else xs[0] + "\n" + JoinLines(xs[1..])
  }

  /** `s.split("\n")`: the reference the joined text is read back with. */
  function SplitLines(s: string): (lines: seq<string>)
    ensures |lines| > 0
  {
    if s == [] then [""]
    else if s[0] == '\n' then [""] + SplitLines(s[1..])
    else
      var rest := SplitLines(s[1..]);
      [[s[0]] + rest[0]] + rest[1..]
  }

  /** A text without newlines is a single line. */
  lemma {:induction false} SplitSingleLine(s: string)
    requires '\n' !in s
    ensures SplitLines(s) == [s]
  {
    if s != [] {
      assert s[0] != '\n' && '\n' !in s[1..];
      SplitSingleLine(s[1..]);
      assert [s[0]] + s[1..] == s;
    }
  }

  /** Splitting at one more newline splits the two sides independently. */
  lemma {:induction false} SplitConcat(a: string, b: string)
    ensures SplitLines(a + "\n" + b) == SplitLines(a) + SplitLines(b)
  {
    var s := a + "\n" + b;
    if a == [] {
      assert s == "\n" + b && s[1..] == b;
    } else {
      assert s[0] == a[0];
      assert s[1..] == a[1..] + "\n" + b;
      SplitConcat(a[1..], b);
    }
  }

  /** Joining lines without newlines and splitting the result gives the lines back. */
  lemma {:induction false} SplitJoinRoundTrip(xs: seq<string>)
    requires |xs| > 0 && forall i :: 0 <= i < |xs| ==> '\n' !in xs[i]
    ensures SplitLines(JoinLines(xs)) == xs
  {
    SplitSingleLine(xs[0]);
    if |xs| > 1 {
      SplitJoinRoundTrip(xs[1..]);
      SplitConcat(xs[0], JoinLines(xs[1..]));
      assert xs == [xs[0]] + xs[1..];
    }
  }

  /** The texts of the saved segments, in order. */
  function Texts(segments: seq<TranscriptEntry>): (texts: seq<string>)
    ensures |texts| == |segments| && forall i :: 0 <= i < |segments| ==> texts[i] == EntryText(segments[i])
  {
    seq(|segments|, i requires 0 <= i < |segments| => EntryText(segments[i]))
  }

  /** `"\n".join([seg.get("text", "") for seg in segments])`. */
  function MeetingText(segments: seq<TranscriptEntry>): string
  {
    JoinLines(Texts(segments))
  }

  /** A segment text without newlines is one line of the meeting text, in segment order. */
  lemma MeetingTextLines(segments: seq<TranscriptEntry>)
    requires |segments| > 0 && forall i :: 0 <= i < |segments| ==> '\n' !in EntryText(segments[i])
    ensures SplitLines(MeetingText(segments)) == Texts(segments)
  {
    SplitJoinRoundTrip(Texts(segments));
  }

  /** `prompt_data.get(key, "")`. */
  function Field(promptData: map<string, string>, key: string): string
  {
    if key in promptData then promptData[key] else ""
  }

  /** The single user message: meeting text, dictionary text, system prompt and user prompt, each closed by a newline. */
  function CombinedPrompt(meetingText: string, dictText: string, promptData: map<string, string>): string
  {
    meetingText + "\n" + dictText + "\n" + Field(promptData, "system_prompt") + "\n" + Field(promptData, "user_prompt") + "\n"
  }

  /**
   * Read back line by line, the combined prompt is the meeting text's lines, then the dictionary
   * text, the system prompt and the user prompt, then the empty remainder after the last newline.
   */
  lemma CombinedPromptLines(meetingText: string, dictText: string, promptData: map<string, string>)
    ensures SplitLines(CombinedPrompt(meetingText, dictText, promptData))
         == SplitLines(meetingText) + SplitLines(dictText) + SplitLines(Field(promptData, "system_prompt"))
          + SplitLines(Field(promptData, "user_prompt")) + [""]
  {
    FourLines(meetingText, dictText, Field(promptData, "system_prompt"), Field(promptData, "user_prompt"));
  }

  /** Four parts, each closed by a newline, split into their own lines and a final empty line. */
  lemma FourLines(a: string, b: string, c: string, d: string)
    ensures SplitLines(a + "\n" + b + "\n" + c + "\n" + d + "\n")
         == SplitLines(a) + SplitLines(b) + SplitLines(c) + SplitLines(d) + [""]
  {
    var d1 := d + "\n" + "";
    var c1 := c + "\n" + d1;
    var b1 := b + "\n" + c1;
    assert d1 == d + "\n";
    assert a + "\n" + b + "\n" + c + "\n" + d + "\n" == a + "\n" + b1;
    SplitConcat(d, "");
    SplitConcat(c, d1);
    SplitConcat(b, c1);
    SplitConcat(a, b1);
  }

  /** With single-line parts, each segment text, the dictionary and both prompts are one line each. */
  lemma CombinedPromptOfPlainParts(segments: seq<TranscriptEntry>, dictText: string, promptData: map<string, string>)
    requires |segments| > 0 && forall i :: 0 <= i < |segments| ==> '\n' !in EntryText(segments[i])
    requires '\n' !in dictText && '\n' !in Field(promptData, "system_prompt") && '\n' !in Field(promptData, "user_prompt")
    ensures SplitLines(CombinedPrompt(MeetingText(segments), dictText, promptData))
         == Texts(segments) + [dictText, Field(promptData, "system_prompt"), Field(promptData, "user_prompt"), ""]
  {
    MeetingTextLines(segments);
    CombinedPromptLines(MeetingText(segments), dictText, promptData);
    SplitSingleLine(dictText);
    SplitSingleLine(Field(promptData, "system_prompt"));
    SplitSingleLine(Field(promptData, "user_prompt"));
  }

  /** `num_ctx` and `num_predict` of the chat options. */
  const ContextLength: int := 10240
  const PredictAll: int := -1

  /** One `ollama.chat` call: the model and the single user message, with the fixed options. */
  datatype ChatRequest = ChatRequest(model: string, content: string, numCtx: int, numPredict: int)

  /**
   * What the summarizer reads of the reply: `response.get('done', False)` and
   * `response['message']['content']`, None when the reply carries no such field.
   */
  datatype ChatResponse = ChatResponse(done: bool, content: Option<string>)

  /**
   * The request sent, if any, and how the call ended: the summary or None when it returns, the
   * exception when `ollama.chat` raises or the content of a `done` reply is missing.
   */
  datatype SummaryOutcome = SummaryOutcome(request: Option<ChatRequest>, summary: Result<Option<string>, string>)

  /**
   * `summarize_meeting(segments, model, gpt_dict_raw_text, prompt_path)`, with the prompt file
   * already read (None when it is missing or unreadable) and the chat call a parameter, which
   * either replies or raises.
   */
  function SummarizeMeeting(segments: seq<TranscriptEntry>, model: string, dictText: string,
                            promptData: Option<map<string, string>>,
                            chat: ChatRequest -> Result<ChatResponse, string>): (r: SummaryOutcome)
    ensures (promptData.None? || promptData.value == map[]) ==> r == SummaryOutcome(None, Ok(None))
    ensures promptData.Some? && promptData.value != map[] ==>
      && r.request == Some(ChatRequest(model, CombinedPrompt(MeetingText(segments), dictText, promptData.value), ContextLength, PredictAll))
      && (chat(r.request.value).Err? ==> r.summary == Err(chat(r.request.value).error))
      && (chat(r.request.value).Ok? ==>
            var reply := chat(r.request.value).value;
            && (!reply.done ==> r.summary == Ok(None))
            && (reply.done && reply.content.Some? ==> r.summary == Ok(Some(reply.content.value)))
            && (reply.done && reply.content.None? ==> r.summary == Err("KeyError")))
  {
    if promptData.None? || promptData.value == map[] then SummaryOutcome(None, Ok(None))
    else
      var request := ChatRequest(model, CombinedPrompt(MeetingText(segments), dictText, promptData.value), ContextLength, PredictAll);
      match chat(request)
      case Err(e) => SummaryOutcome(Some(request), Err(e))
      case Ok(response) =>
        if !response.done then SummaryOutcome(Some(request), Ok(None))
        else if response.content.None? then SummaryOutcome(Some(request), Err("KeyError"))
        else SummaryOutcome(Some(request), Ok(Some(response.content.value)))
  }

  /** No request leaves the summarizer before a non-empty prompt file has been read. */
  lemma NoPromptNoRequest(segments: seq<TranscriptEntry>, model: string, dictText: string,
                          promptData: Option<map<string, string>>, chat: ChatRequest -> Result<ChatResponse, string>)
    ensures SummarizeMeeting(segments, model, dictText, promptData, chat).request.Some?
        <==> promptData.Some? && |promptData.value| > 0
  {
    if promptData.Some? && |promptData.value| > 0 {
      assert promptData.value != map[];
    }
  }

  /** A summary is returned exactly when the model answered `done` with its content, and it is that content. */
  lemma SummaryIsReplyContent(segments: seq<TranscriptEntry>, model: string, dictText: string,
                              promptData: Option<map<string, string>>, chat: ChatRequest -> Result<ChatResponse, string>)
    ensures var r := SummarizeMeeting(segments, model, dictText, promptData, chat);
      (r.summary.Ok? && r.summary.value.Some?) <==>
        (r.request.Some? && chat(r.request.value).Ok? && chat(r.request.value).value.done
         && chat(r.request.value).value.content.Some?)
    ensures var r := SummarizeMeeting(segments, model, dictText, promptData, chat);
      r.summary.Ok? && r.summary.value.Some? ==> r.summary.value == chat(r.request.value).value.content
  {
  }

  const MarkdownHeader: string := "# Meeting Summary\n\n"

  /**
   * The text `save_summary_to_markdown` writes: the header, then the summary. A missing summary
   * (None) makes `md_content += summary` raise outside the `try`.
   */
  function MarkdownContent(summary: Option<string>): (r: Result<string, string>)
    ensures summary.None? ==> r.Err?
    ensures summary.Some? ==> r.Ok? && StartsWith(r.value, MarkdownHeader) && |r.value| == |MarkdownHeader| + |summary.value|
  {
    if summary.None? then Err("TypeError")
    else
      var md := MarkdownHeader + summary.value;
      assert md[..|MarkdownHeader|] == MarkdownHeader;
      Ok(md)
  }

  /** Dropping the header from the file content gives the summary back. */
  lemma MarkdownKeepsSummary(summary: string)
    ensures MarkdownContent(Some(summary)).value[|MarkdownHeader|..] == summary
  {
    var md := MarkdownHeader + summary;
    assert md[|MarkdownHeader|..] == summary;
  }

  /**
   * The transcription file as `load_segments_from_json` finds it: absent, unreadable (not JSON,
   * or not an object), or an object with or without a "segments" field.
   */
  datatype TranscriptionFile = NotFound | Unreadable | Document(segments: Option<seq<TranscriptEntry>>)

  /** `load_segments_from_json(filepath)`: None on any failure, and `[]` when the field is absent. */
  function LoadSegments(file: TranscriptionFile): (r: Option<seq<TranscriptEntry>>)
    ensures r.None? <==> !file.Document?
    ensures file.Document? && file.segments.Some? ==> r == file.segments
    ensures file.Document? && file.segments.None? ==> r == Some([])
  {
    match file
    case NotFound => None
    case Unreadable => None
    case Document(segments) => if segments.Some? then segments else Some([])
  }

  /** A document without "segments" reads exactly like one with an empty list of them. */
  lemma MissingSegmentsReadAsEmpty()
    ensures LoadSegments(Document(None)) == LoadSegments(Document(Some([])))
  {
  }

  /** One entry of `ollama.list()['models']`, with or without a "name" field. */
  datatype ModelEntry = ModelEntry(name: Option<string>)

  /** What `ollama.list()` gives: a failure, or a reply with or without a "models" field. */
  datatype ListReply = ListFailed | Listed(models: Option<seq<ModelEntry>>)

  /** `populate_sum_model()`: the model names in listing order, or None when anything is missing. */
  function PopulateSumModel(reply: ListReply): (r: Option<seq<string>>)
    ensures r.Some? <==> reply.Listed? && reply.models.Some? && forall i :: 0 <= i < |reply.models.value| ==> reply.models.value[i].name.Some?
    ensures r.Some? ==>
      && |r.value| == |reply.models.value|
      && forall i :: 0 <= i < |r.value| ==> r.value[i] == reply.models.value[i].name.value
  {
    if reply.ListFailed? || reply.models.None? then None
    else Names(reply.models.value)
  }

  /** `[model['name'] for model in models]`, None for the `KeyError` of an entry without a name. */
  function Names(models: seq<ModelEntry>): (r: Option<seq<string>>)
    ensures r.Some? <==> forall i :: 0 <= i < |models| ==> models[i].name.Some?
    ensures r.Some? ==> |r.value| == |models| && forall i :: 0 <= i < |models| ==> r.value[i] == models[i].name.value
  {
    if models == [] then Some([])
    else if models[0].name.None? then None
    else
      match Names(models[1..])
      case None => None
      case Some(rest) => Some([models[0].name.value] + rest)
  }

  /** `populate_sum_model() or ["None"]`: the choices of the model drop-down. */
  function ModelChoices(reply: ListReply): (choices: seq<string>)
    ensures |choices| > 0
    ensures PopulateSumModel(reply).Some? && PopulateSumModel(reply).value != [] ==> choices == PopulateSumModel(reply).value
    ensures (PopulateSumModel(reply).None? || PopulateSumModel(reply).value == []) ==> choices == ["None"]
  {
    var names := PopulateSumModel(reply);
    if names.Some? && names.value != [] then names.value else ["None"]
  }

  /** An empty listing and a failed listing offer the same single placeholder choice. */
  lemma NoModelsOfferPlaceholder()
    ensures ModelChoices(Listed(Some([]))) == ModelChoices(ListFailed) == ["None"]
  {
  }
}
