/**
 * What the two web apps share about prompts: the display-language table, the `.json` filter over
 * a prompt folder's listing, and the path a selected prompt name is read from.
 */
module Prompts {
  import opened Common
  import opened PathUtil

  /** `LANGUAGE_MAP`: display language to language code. */
  const LanguageMap: map<string, string> := map["日本語" := "ja", "中文" := "zh", "English" := "en"]

  /** `LANGUAGE_MAP.get(display, "en")`. */
  function LanguageCode(display: string): (code: string)
    ensures code == "en" || code == "ja" || code == "zh"
    ensures display in LanguageMap ==> code == LanguageMap[display]
    ensures display !in LanguageMap ==> code == "en"
  {
    if display in LanguageMap then LanguageMap[display] else "en"
  }

  /** A prompt folder: `os.path.exists` is false, or it lists these entries (`os.listdir`). */
  datatype Folder = Missing | Present(entries: seq<string>)

  /** What `load_prompts` returns when there is nothing to offer. */
  const NoPrompts: seq<string> := ["No prompts available"]

  predicate IsJsonName(f: string)
  {
    EndsWith(f, ".json")
  }

  /** `[f for f in entries if f.endswith('.json')]`. */
  function JsonFiles(entries: seq<string>): (r: seq<string>)
    ensures forall f :: f in r <==> f in entries && IsJsonName(f)
    ensures |r| <= |entries|
  {
    if entries == [] then []
    else (if IsJsonName(entries[0]) then [entries[0]] else []) + JsonFiles(entries[1..])
  }

  /** `[os.path.splitext(f)[0] for f in files]`. */
  function Stems(files: seq<string>): (r: seq<string>)
    ensures |r| == |files| && forall i :: 0 <= i < |files| ==> r[i] == Stem(files[i])
  {
    seq(|files|, i requires 0 <= i < |files| => Stem(files[i]))
  }

  /** `os.path.join("prompt", language)`. */
  function PromptFolder(display: string): string
  {
    Join("prompt", LanguageCode(display))
  }

  /** `f"prompt/{LANGUAGE_MAP.get(target_language, 'en')}/{selected_prompt}.json"`. */
  function PromptPath(display: string, name: string): string
  {
    "prompt/" + LanguageCode(display) + "/" + name + ".json"
  }

  /** The arguments both apps' `text_summary` pass to `generate_summary`. */
  datatype SummaryJob = SummaryJob(transcriptionFile: string, model: string, language: string,
                                   promptPath: string, outputFile: string)

  ghost predicate Distinct(xs: seq<string>)
  {
    forall i, j :: 0 <= i < j < |xs| ==> xs[i] != xs[j]
  }

  /** The filter keeps listing order: it distributes over concatenation. */
  lemma {:induction false} JsonFilesAppend(a: seq<string>, b: seq<string>)
    ensures JsonFiles(a + b) == JsonFiles(a) + JsonFiles(b)
  {
    if a != [] {
      assert (a + b)[1..] == a[1..] + b;
      JsonFilesAppend(a[1..], b);
    } else {
      assert a + b == b;
    }
  }

  /** A listing without repeated names gives `.json` names without repeats. */
  lemma {:induction false} JsonFilesDistinct(entries: seq<string>)
    requires Distinct(entries)
    ensures Distinct(JsonFiles(entries))
  {
    if entries != [] {
      var rest := entries[1..];
      assert Distinct(rest) by {
        forall i, j | 0 <= i < j < |rest| ensures rest[i] != rest[j] {
          assert rest[i] == entries[i + 1] && rest[j] == entries[j + 1];
        }
      }
      JsonFilesDistinct(rest);
      if IsJsonName(entries[0]) {
        assert entries[0] !in rest;
        assert entries[0] !in JsonFiles(rest);
      }
    }
  }

  /** The stem of a `.json` listing entry: the name without `.json`, or the whole name if it is all dots. */
  lemma JsonStem(f: string)
    requires IsJsonName(f) && '/' !in f
    ensures Stem(f) == if HasNonDot(f, 0, |f| - 5) then f[..|f| - 5] else f
  {
    var name := f[..|f| - 5];
    assert f == name + ".json";
    if HasNonDot(f, 0, |f| - 5) {
      var i :| 0 <= i < |f| - 5 && f[i] != '.';
      assert name[i] == f[i];
      StemOfJsonName(name);
    } else {
      assert LastIndex(f, '/') == -1;
      assert f[|f| - 5] == '.';
      assert LastIndex(f, '.') == |f| - 5;
    }
  }

  /** The path of a prompt name is the listing entry `<name>.json` inside the language's folder. */
  lemma PromptPathInFolder(display: string, name: string)
    requires name != [] && name[0] != '/'
    ensures PromptPath(display, name) == Join(PromptFolder(display), name + ".json")
  {
    var code := LanguageCode(display);
    assert code[0] != '/' && code[|code| - 1] != '/';
    var f := name + ".json";
    assert f[0] == name[0];
    JoinTwice("prompt", code, f);
    assert "prompt" + "/" == "prompt/";
    var d1 := "prompt/" + code + "/";
    assert d1 + (name + ".json") == (d1 + name) + ".json";
  }

  /**
   * Choosing a listed prompt by its displayed name reads back exactly that file, when the entry
   * has a character other than a dot before `.json`.
   */
  lemma SelectedNameReadsListedFile(display: string, f: string)
    requires IsJsonName(f) && '/' !in f && HasNonDot(f, 0, |f| - 5)
    ensures PromptPath(display, Stem(f)) == Join(PromptFolder(display), f)
  {
    JsonStem(f);
    var name := f[..|f| - 5];
    assert f == name + ".json";
    assert name[0] == f[0] && f[0] in f;
    PromptPathInFolder(display, name);
  }

  /**
   * An entry named exactly `.json` is offered under its whole name, so choosing it reads
   * `.json.json` instead of the listed file.
   */
  lemma BareJsonEntryMisreads(display: string)
    ensures Stem(".json") == ".json"
    ensures PromptPath(display, Stem(".json")) == "prompt/" + LanguageCode(display) + "/" + ".json" + ".json"
    ensures PromptPath(display, Stem(".json")) != Join(PromptFolder(display), ".json")
  {
    BareJsonKeepsName();
    OtherFileRead(LanguageCode(display), ".json");
  }

  lemma OtherFileRead(code: string, f: string)
    requires code != [] && code[0] != '/' && code[|code| - 1] != '/'
    requires f != [] && f[0] != '/'
    ensures "prompt/" + code + "/" + f + ".json" != Join(Join("prompt", code), f)
  {
    JoinTwice("prompt", code, f);
    assert |"prompt/" + code + "/" + f + ".json"| == |"prompt" + "/" + code + "/" + f| + 5;
  }
}
