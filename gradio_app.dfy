/** The Gradio web app: its prompt list (default prompt first) and the summary request. */
module GradioApp {
  import opened Common
  import opened PathUtil
  import opened Prompts

  /** The default prompt names, without their `.json`. */
  const EnglishDefault: string := "Default-Meeting Summary"
  const JapaneseDefault: string := "Default-会議の要約"
  const ChineseDefault: string := "默认-会议总结"

  /** `default_prompts.get(language)`. */
  function DefaultPromptFile(code: string): Option<string>
  {
    if code == "en" then Some(EnglishDefault + ".json")
    else if code == "ja" then Some(JapaneseDefault + ".json")
    else if code == "zh" then Some(ChineseDefault + ".json")
    else None
  }

  /** `[f for f in files if f != default_prompt]`. */
  function Without(files: seq<string>, d: Option<string>): (r: seq<string>)
    ensures forall f :: f in r <==> f in files && Some(f) != d
    ensures |r| <= |files|
  {
    if files == [] then []
    else (if Some(files[0]) != d then [files[0]] else []) + Without(files[1..], d)
  }

  /** The list built by `load_prompts` before the `or` fallback. */
  function OrderedPrompts(jsonFiles: seq<string>, d: Option<string>): seq<string>
  {
    (if d.Some? && d.value in jsonFiles then [Stem(d.value)] else []) + Stems(Without(jsonFiles, d))
  }

  /** A `.json` entry whose stem is unambiguous: a non-dot character before `.json`, and a stem not itself ending in `.json`. */
  predicate ProperJsonFile(d: string)
  {
    && IsJsonName(d) && '/' !in d
    && HasNonDot(d, 0, |d| - 5)
    && !EndsWith(Stem(d), ".json")
  }

  lemma ProperName(name: string)
    requires '/' !in name && |name| > 0 && name[0] != '.' && name[|name| - 1] != 'n'
    ensures ProperJsonFile(name + ".json")
  {
    var d := name + ".json";
    assert d[..|name|] == name;
    assert d[0] == name[0];
    assert forall c :: c in d ==> c in name || c in ".json";
    assert HasNonDot(name, 0, |name|);
    StemOfJsonName(name);
  }

  /** Every language code of the app has a default prompt, itself a proper `<name>.json` file name. */
  lemma DefaultPromptExists(display: string)
    ensures var d := DefaultPromptFile(LanguageCode(display));
      d.Some? && ProperJsonFile(d.value)
  {
    var code := LanguageCode(display);
    if code == "en" {
      assert forall i :: 0 <= i < |EnglishDefault| ==> EnglishDefault[i] != '/';
      ProperName(EnglishDefault);
    } else if code == "ja" {
      assert forall i :: 0 <= i < |JapaneseDefault| ==> JapaneseDefault[i] != '/';
      ProperName(JapaneseDefault);
    } else {
      assert forall i :: 0 <= i < |ChineseDefault| ==> ChineseDefault[i] != '/';
      ProperName(ChineseDefault);
    }
  }

  /** Two `.json` listing entries with the same stem are the same entry, when one of them is proper. */
  lemma StemsOfJsonNamesDiffer(f: string, d: string)
    requires IsJsonName(f) && '/' !in f && ProperJsonFile(d)
    requires f != d
    ensures Stem(f) != Stem(d)
  {
    JsonStem(f);
    JsonStem(d);
    if HasNonDot(f, 0, |f| - 5) {
      assert f == f[..|f| - 5] + ".json" && d == d[..|d| - 5] + ".json";
    }
  }

  /** The default prompt, when listed, heads the list and its name appears nowhere else. */
  lemma DefaultOnlyFirst(entries: seq<string>, d: string)
    requires ProperJsonFile(d) && d in entries
    requires forall f :: f in entries ==> '/' !in f
    ensures var prompts := OrderedPrompts(JsonFiles(entries), Some(d));
      && |prompts| > 0 && prompts[0] == Stem(d)
      && forall i :: 0 < i < |prompts| ==> prompts[i] != Stem(d)
  {
    var jsonFiles := JsonFiles(entries);
    assert d in jsonFiles;
    var rest := Without(jsonFiles, Some(d));
    var prompts := OrderedPrompts(jsonFiles, Some(d));
    assert prompts == [Stem(d)] + Stems(rest);
    forall i | 0 < i < |prompts| ensures prompts[i] != Stem(d) {
      var f := rest[i - 1];
      assert f in rest;
      StemsOfJsonNamesDiffer(f, d);
    }
  }

  /** A non-empty `.json` listing always gives a non-empty list. */
  lemma OrderedPromptsNonEmpty(jsonFiles: seq<string>, d: Option<string>)
    requires jsonFiles != []
    ensures OrderedPrompts(jsonFiles, d) != []
  {
    assert jsonFiles[0] in jsonFiles;
    if Some(jsonFiles[0]) != d {
      assert jsonFiles[0] in Without(jsonFiles, d);
    }
  }

  /**
   * `load_prompts(target_language)` over the folder `prompt/<code>`: the `.json` entries without
   * their extension, the language's default prompt first and only once, the rest in listing order,
   * or `["No prompts available"]` when the folder is missing or has no `.json` entry.
   */
  method LoadPrompts(targetLanguage: string, folder: Folder) returns (prompts: seq<string>)
    ensures folder.Missing? ==> prompts == NoPrompts
    ensures folder.Present? && JsonFiles(folder.entries) == [] ==> prompts == NoPrompts
    ensures folder.Present? && JsonFiles(folder.entries) != [] ==>
      prompts == OrderedPrompts(JsonFiles(folder.entries), DefaultPromptFile(LanguageCode(targetLanguage)))
    ensures folder.Present? && (forall f :: f in folder.entries ==> '/' !in f) ==>
      var d := DefaultPromptFile(LanguageCode(targetLanguage)).value;
      d in folder.entries ==>
        prompts[0] == Stem(d) && forall i :: 0 < i < |prompts| ==> prompts[i] != Stem(d)
  {
    var language := LanguageCode(targetLanguage);
    prompts := [];
    if folder.Present? {
      var jsonFiles := JsonFiles(folder.entries);
      var defaultPrompt := DefaultPromptFile(language);
      if defaultPrompt.Some? && defaultPrompt.value in jsonFiles {
        prompts := prompts + [Stem(defaultPrompt.value)];
      }
      prompts := prompts + Stems(Without(jsonFiles, defaultPrompt));
      assert prompts == OrderedPrompts(jsonFiles, defaultPrompt);
      if jsonFiles != [] {
        OrderedPromptsNonEmpty(jsonFiles, defaultPrompt);
      }
      DefaultPromptExists(targetLanguage);
      if defaultPrompt.value in folder.entries && forall f :: f in folder.entries ==> '/' !in f {
        DefaultOnlyFirst(folder.entries, defaultPrompt.value);
      }
    }
    if prompts == [] {
      prompts := NoPrompts;
    }
  }

  lemma {:induction false} StemsAppend(a: seq<string>, b: seq<string>)
    ensures Stems(a + b) == Stems(a) + Stems(b)
  {
  }

  lemma {:induction false} WithoutAbsent(files: seq<string>, d: string)
    requires d !in files
    ensures Without(files, Some(d)) == files
  {
    if files != [] {
      assert files[0] != d;
      WithoutAbsent(files[1..], d);
    }
  }

  lemma DistinctTail(xs: seq<string>)
    requires Distinct(xs) && xs != []
    ensures Distinct(xs[1..]) && xs[0] !in xs[1..]
  {
    var rest := xs[1..];
    forall i, j | 0 <= i < j < |rest| ensures rest[i] != rest[j] {
      assert rest[i] == xs[i + 1] && rest[j] == xs[j + 1];
    }
  }

  /** The listing entries in the order `load_prompts` shows them. */
  function OrderedFiles(jsonFiles: seq<string>, d: Option<string>): seq<string>
  {
    (if d.Some? && d.value in jsonFiles then [d.value] else []) + Without(jsonFiles, d)
  }

  /** The displayed list is the stems of the reordered entries. */
  lemma PromptsAreStemsOfOrderedFiles(jsonFiles: seq<string>, d: Option<string>)
    ensures OrderedPrompts(jsonFiles, d) == Stems(OrderedFiles(jsonFiles, d))
  {
    StemsAppend(if d.Some? && d.value in jsonFiles then [d.value] else [], Without(jsonFiles, d));
  }

  /** Without repeated names in the listing, the shown entries are a reordering of all `.json` entries. */
  lemma {:induction false} DefaultFirstIsReordering(jsonFiles: seq<string>, d: string)
    requires Distinct(jsonFiles)
    ensures multiset(OrderedFiles(jsonFiles, Some(d))) == multiset(jsonFiles)
  {
    if jsonFiles != [] {
      var x, rest := jsonFiles[0], jsonFiles[1..];
      DistinctTail(jsonFiles);
      DefaultFirstIsReordering(rest, d);
      assert jsonFiles == [x] + rest;
      var w := Without(rest, Some(d));
      if x == d {
        WithoutAbsent(rest, d);
        assert Without(jsonFiles, Some(d)) == rest;
      } else {
        assert Without(jsonFiles, Some(d)) == [x] + w;
        if d in rest {
          assert OrderedFiles(jsonFiles, Some(d)) == [d] + ([x] + w);
        } else {
          assert d !in jsonFiles;
        }
      }
    }
  }

  /** When the default prompt is not listed, the order is exactly the listing order. */
  lemma NoDefaultKeepsListingOrder(jsonFiles: seq<string>, d: string)
    requires d !in jsonFiles
    ensures OrderedPrompts(jsonFiles, Some(d)) == Stems(jsonFiles)
  {
    WithoutAbsent(jsonFiles, d);
  }

  /** `os.path.splitext(os.path.basename(video_file))[0]`. */
  function VideoName(videoFile: string): string
  {
    Stem(Basename(videoFile))
  }

  const TranscriptionName: string := "transcription.json"
  const SummaryName: string := "meeting_summary.md"

  /** The job for a selected video: prompt, transcription and summary paths. */
  function SummaryJobFor(llmModel: string, targetLanguage: string, selectedPrompt: string, videoFile: string): (job: SummaryJob)
    ensures job.promptPath == PromptPath(targetLanguage, selectedPrompt)
    ensures job.transcriptionFile == Join(Join("result", VideoName(videoFile)), TranscriptionName)
    ensures job.outputFile == Join(Join("result", VideoName(videoFile)), SummaryName)
    ensures job.model == llmModel && job.language == targetLanguage
  {
    var dir := Join("result", VideoName(videoFile));
    SummaryJob(Join(dir, TranscriptionName), llmModel, targetLanguage,
               PromptPath(targetLanguage, selectedPrompt), Join(dir, SummaryName))
  }

  /**
   * `text_summary`: with no video, a fixed message and no file; otherwise the outcome of
   * `generate_summary` (a parameter here) on the job above, or its error message.
   */
  function TextSummary(llmModel: string, targetLanguage: string, selectedPrompt: string, videoFile: Option<string>,
                       generate: SummaryJob -> Result<string, string>): (r: (string, Option<string>))
    ensures !Truthy(videoFile) ==> r == ("No video selected", None)
    ensures Truthy(videoFile) ==>
      var outcome := generate(SummaryJobFor(llmModel, targetLanguage, selectedPrompt, videoFile.value));
      && (outcome.Ok? ==> r == ("Summary generation complete.", Some(outcome.value)))
      && (outcome.Err? ==> r == ("Error: " + outcome.error, None))
  {
    if !Truthy(videoFile) then ("No video selected", None)
    else
      match generate(SummaryJobFor(llmModel, targetLanguage, selectedPrompt, videoFile.value))
      case Ok(file) => ("Summary generation complete.", Some(file))
      case Err(e) => ("Error: " + e, None)
  }

  /**
   * A video file `<name>.<ext>`, in any directory, is named `name`: the directory and exactly
   * the last extension are dropped.
   */
  lemma PlainVideoName(dir: string, name: string, ext: string)
    requires dir == "" || dir[|dir| - 1] == '/'
    requires '/' !in name && HasNonDot(name, 0, |name|)
    requires '.' !in ext && '/' !in ext
    ensures VideoName(dir + name + "." + ext) == name
  {
    var file := name + "." + ext;
    assert dir + name + "." + ext == dir + file;
    assert '/' !in file by {
      forall i | 0 <= i < |file| ensures file[i] != '/' {
        if i < |name| { assert file[i] == name[i]; }
        else if i > |name| { assert file[i] == ext[i - |name| - 1]; }
      }
    }
    BasenameAfterDir(dir, file);
    SplitExtOfName("", name, ext);
    assert "" + name + "." + ext == file && "" + name == name;
  }

  lemma ResultPath(name: string, file: string)
    requires name != "" && name[0] != '/' && name[|name| - 1] != '/' && file != "" && file[0] != '/'
    ensures Join(Join("result", name), file) == "result/" + name + "/" + file
  {
    JoinTwice("result", name, file);
    assert "result" + "/" == "result/";
  }

  /** For a video file `<name>.<ext>` in any directory, the transcription and the summary sit in `result/<name>/`. */
  lemma SummaryPathsForPlainName(dir: string, name: string, ext: string, llmModel: string, targetLanguage: string, selectedPrompt: string)
    requires dir == "" || dir[|dir| - 1] == '/'
    requires '/' !in name && HasNonDot(name, 0, |name|)
    requires '.' !in ext && '/' !in ext
    ensures var job := SummaryJobFor(llmModel, targetLanguage, selectedPrompt, dir + name + "." + ext);
      && job.transcriptionFile == "result/" + name + "/" + TranscriptionName
      && job.outputFile == "result/" + name + "/" + SummaryName
  {
    PlainVideoName(dir, name, ext);
    assert name[0] in name && name[|name| - 1] in name;
    assert TranscriptionName[0] == 't' && SummaryName[0] == 'm';
    ResultPath(name, TranscriptionName);
    ResultPath(name, SummaryName);
  }
}
