/** Speaker attribution: fuse a diarization table with a transcript (`assign_word_speakers`). */
module Diarize {
  import opened Common

  /** One row of the diarization table: a speaker turn [start, end]. */
  datatype Row = Row(start: real, end: real, speaker: string)

  datatype Span = Span(start: real, end: real)

  /** A transcript word. `timing` is None when the word dict has no `start` key. */
  datatype Word = Word(text: string, timing: Option<Span>, speaker: Option<string>)

  /** A transcript segment; `words` is None when the segment dict has no `words` key. */
  datatype Segment = Segment(start: real, end: real, text: string, words: Option<seq<Word>>, speaker: Option<string>)

  // ---------------------------------------------------------------------------
  // Overlap and the per-unit choice of speaker
  // ---------------------------------------------------------------------------

  /** The `intersection` column: `min(row.end, e) - max(row.start, s)`, negative when disjoint. */
  function Intersection(r: Row, s: real, e: real): (d: real)
    ensures d > 0.0 <==> (s < e && r.start < r.end && r.start < e && s < r.end)
    ensures d <= e - s && d <= r.end - r.start
  {
    Min(r.end, e) - Max(r.start, s)
  }

  /** The rows kept by `diarize_df[diarize_df['intersection'] > 0]`, in table order. */
  function Positive(rows: seq<Row>, s: real, e: real): seq<Row>
  {
    if rows == [] then []
    else if Intersection(rows[0], s, e) > 0.0 then [rows[0]] + Positive(rows[1..], s, e)
    else Positive(rows[1..], s, e)
  }

  /** The filter keeps exactly the rows that overlap [s, e]. */
  lemma {:induction false} PositiveKeepsOverlapping(rows: seq<Row>, s: real, e: real)
    ensures forall r :: r in Positive(rows, s, e) <==> r in rows && Intersection(r, s, e) > 0.0
  {
    if rows != [] {
      PositiveKeepsOverlapping(rows[1..], s, e);
      assert forall r :: r in rows <==> r == rows[0] || r in rows[1..];
    }
  }

  /** `dia_tmp`: the filtered table, or the whole table under `fill_nearest`. */
  function Candidates(rows: seq<Row>, s: real, e: real, fillNearest: bool): seq<Row>
  {
    if fillNearest then rows else Positive(rows, s, e)
  }

  /** `groupby("speaker")["intersection"].sum()` evaluated at speaker `k`. */
  function SpeakerSum(rows: seq<Row>, k: string, s: real, e: real): real
  {
    if rows == [] then 0.0
    else (if rows[0].speaker == k then Intersection(rows[0], s, e) else 0.0) + SpeakerSum(rows[1..], k, s, e)
  }

  /** The speaker labels of the rows, in table order. */
  function Speakers(rows: seq<Row>): (ks: seq<string>)
    ensures |ks| == |rows| && forall i :: 0 <= i < |rows| ==> ks[i] == rows[i].speaker
  {
    seq(|rows|, i requires 0 <= i < |rows| => rows[i].speaker)
  }

  /**
   * A speaker of `ks` with the largest summed overlap (`sort_values(ascending=False).index[0]`).
   * Among equal sums the earliest in `ks` is taken; the source leaves ties to the sort.
   */
  function BestSpeaker(rows: seq<Row>, ks: seq<string>, s: real, e: real): string
    requires |ks| > 0
  {
    if |ks| == 1 then ks[0]
    else
      var rest := BestSpeaker(rows, ks[1..], s, e);
      if SpeakerSum(rows, ks[0], s, e) >= SpeakerSum(rows, rest, s, e) then ks[0] else rest
  }

  /** The speaker picked is one of the labels, and no label has a larger summed overlap. */
  lemma {:induction false} BestSpeakerIsMaximal(rows: seq<Row>, ks: seq<string>, s: real, e: real)
    requires |ks| > 0
    ensures BestSpeaker(rows, ks, s, e) in ks
    ensures forall k' :: k' in ks ==> SpeakerSum(rows, k', s, e) <= SpeakerSum(rows, BestSpeaker(rows, ks, s, e), s, e)
  {
    if |ks| > 1 {
      BestSpeakerIsMaximal(rows, ks[1..], s, e);
      assert forall k' :: k' in ks <==> k' == ks[0] || k' in ks[1..];
    }
  }

  /** The speaker written into a unit spanning [s, e], or None when `dia_tmp` is empty. */
  function Choose(rows: seq<Row>, s: real, e: real, fillNearest: bool): (r: Option<string>)
    ensures r.Some? <==> |Candidates(rows, s, e, fillNearest)| > 0
  {
    var c := Candidates(rows, s, e, fillNearest);
    if |c| == 0 then None else Some(BestSpeaker(c, Speakers(c), s, e))
  }

  /** The unit's `speaker` key after its visit: overwritten when a speaker is chosen, kept otherwise. */
  function AssignUnit(current: Option<string>, rows: seq<Row>, s: real, e: real, fillNearest: bool): Option<string>
  {
    match Choose(rows, s, e, fillNearest)
    case Some(k) => Some(k)
    case None => current
  }

  // ---------------------------------------------------------------------------
  // The fused transcript, as a function of the input transcript
  // ---------------------------------------------------------------------------

  /** A word after its visit: a word without timing is skipped. */
  function FuseWord(w: Word, rows: seq<Row>, fillNearest: bool): Word
  {
    match w.timing
    case None => w
    case Some(sp) => w.(speaker := AssignUnit(w.speaker, rows, sp.start, sp.end, fillNearest))
  }

  function FuseWords(ws: seq<Word>, rows: seq<Row>, fillNearest: bool): (r: seq<Word>)
    ensures |r| == |ws| && forall j {:trigger r[j]} :: 0 <= j < |ws| ==> r[j] == FuseWord(ws[j], rows, fillNearest)
  {
    seq(|ws|, j requires 0 <= j < |ws| => FuseWord(ws[j], rows, fillNearest))
  }

  /** The `words` key after the visit: absent stays absent, a list has each word fused. */
  function FuseWordList(words: Option<seq<Word>>, rows: seq<Row>, fillNearest: bool): Option<seq<Word>>
  {
    match words
    case None => None
    case Some(ws) => Some(FuseWords(ws, rows, fillNearest))
  }

  /** A segment after its visit: its own speaker first, then (only if it has `words`) each word. */
  function FuseSegment(seg: Segment, rows: seq<Row>, fillNearest: bool): Segment
  {
    seg.(speaker := AssignUnit(seg.speaker, rows, seg.start, seg.end, fillNearest),
         words := FuseWordList(seg.words, rows, fillNearest))
  }

  function Fuse(segs: seq<Segment>, rows: seq<Row>, fillNearest: bool): (r: seq<Segment>)
    ensures |r| == |segs| && forall i {:trigger r[i]} :: 0 <= i < |segs| ==> r[i] == FuseSegment(segs[i], rows, fillNearest)
  {
    seq(|segs|, i requires 0 <= i < |segs| => FuseSegment(segs[i], rows, fillNearest))
  }

  // ---------------------------------------------------------------------------
  // Progress reports
  // ---------------------------------------------------------------------------

  /** `(i / total_segments) * 100`. */
  function SegmentStart(i: nat, n: nat): real
    requires n > 0
  {
    (i as real / n as real) * 100.0
  }

  /** `(i / total_segments) * 100 + (j / total_words) * (100 / total_segments)`. */
  function WordStep(i: nat, n: nat, j: nat, w: nat): real
    requires n > 0 && w > 0
  {
    SegmentStart(i, n) + (j as real / w as real) * (100.0 / n as real)
  }

  /** The reports of the first `j` words of a segment with `w` words. */
  function WordReports(i: nat, n: nat, w: nat, j: nat): seq<real>
    requires n > 0 && j <= w
  {
    seq(j, jj requires 0 <= jj < j => WordStep(i, n, jj, w))
  }

  lemma WordReportsStep(i: nat, n: nat, w: nat, j: nat)
    requires n > 0 && j < w
    ensures WordReports(i, n, w, j + 1) == WordReports(i, n, w, j) + [WordStep(i, n, j, w)]
  {
  }

  /** The reports made for the words of segment `i`: none when it has no `words` key. */
  function WordsReports(i: nat, n: nat, words: Option<seq<Word>>): seq<real>
    requires n > 0
  {
    match words
    case None => []
    case Some(ws) => WordReports(i, n, |ws|, |ws|)
  }

  /** The reports made while visiting segment `i` of `n`. */
  function SegmentReports(i: nat, n: nat, seg: Segment): seq<real>
    requires n > 0
  {
    [SegmentStart(i, n)] + WordsReports(i, n, seg.words)
  }

  /** The segment's own report followed by its words' reports make up its reports. */
  lemma SegmentReportsJoin(i: nat, n: nat, seg: Segment, reportProgress: bool, start: seq<real>, words: seq<real>)
    requires n > 0
    requires start == if reportProgress then [SegmentStart(i, n)] else []
    requires words == if reportProgress then WordsReports(i, n, seg.words) else []
    ensures start + words == if reportProgress then SegmentReports(i, n, seg) else []
  {
    if !reportProgress {
      assert start + words == [];
    }
  }

  /** The reports made while visiting the first `k` segments. */
  function ReportsUpTo(segs: seq<Segment>, k: nat): seq<real>
    requires k <= |segs|
  {
    if k == 0 then [] else ReportsUpTo(segs, k - 1) + SegmentReports(k - 1, |segs|, segs[k - 1])
  }

  /** Replacing the first unreplaced element of a spliced sequence moves the splice point by one. */
  lemma SpliceStep<T>(done: seq<T>, todo: seq<T>, i: nat)
    requires i < |done| == |todo|
    ensures (done[..i] + todo[i..])[i := done[i]] == done[..i + 1] + todo[i + 1..]
  {
    var s := (done[..i] + todo[i..])[i := done[i]];
    assert forall k :: 0 <= k < |s| ==> s[k] == (done[..i + 1] + todo[i + 1..])[k];
  }

  /** The reports of segment `i` extend those of the segments before it. */
  lemma ReportsUpToStep(segs: seq<Segment>, i: nat, reportProgress: bool, progress: seq<real>, reports: seq<real>)
    requires i < |segs|
    requires progress == if reportProgress then ReportsUpTo(segs, i) else []
    requires reports == if reportProgress then SegmentReports(i, |segs|, segs[i]) else []
    ensures progress + reports == if reportProgress then ReportsUpTo(segs, i + 1) else []
  {
    if !reportProgress {
      assert progress + reports == [];
    }
  }

  /** Every value handed to `progress_callback` during one run, in order. */
  function ProgressReports(segs: seq<Segment>): seq<real>
  {
    ReportsUpTo(segs, |segs|) + [100.0]
  }

  // ---------------------------------------------------------------------------
  // The in-place operation
  // ---------------------------------------------------------------------------

  /** The transcript dict; `segments` is updated in place by the fuser. */
  class Transcript {
    var segments: seq<Segment>

    constructor (segments: seq<Segment>)
      ensures this.segments == segments
    {
      this.segments := segments;
    }
  }

  /**
   * `assign_word_speakers(diarize_df, transcript_result, fill_nearest, progress_callback)`.
   * `reportProgress` says whether a callback is given; `progress` is what it receives.
   */
  method AssignWordSpeakers(rows: seq<Row>, transcript: Transcript, fillNearest: bool, reportProgress: bool)
    returns (result: Transcript, progress: seq<real>)
    modifies transcript
    ensures result == transcript
    ensures transcript.segments == Fuse(old(transcript.segments), rows, fillNearest)
    ensures progress == if reportProgress then ProgressReports(old(transcript.segments)) else []
  {
    ghost var segs0 := transcript.segments;
    var n := |transcript.segments|;
    progress := [];
    var i := 0;
    while i < n
      invariant 0 <= i <= n == |segs0| == |transcript.segments|
      invariant forall k {:trigger transcript.segments[k]} :: 0 <= k < i ==> transcript.segments[k] == FuseSegment(segs0[k], rows, fillNearest)
      invariant forall k :: i <= k < n ==> transcript.segments[k] == segs0[k]
      invariant progress == if reportProgress then ReportsUpTo(segs0, i) else []
    {
      var current := transcript.segments[i];
      assert current == segs0[i];
      var seg, reports := VisitSegment(rows, current, i, n, fillNearest, reportProgress);
      ReportsUpToStep(segs0, i, reportProgress, progress, reports);
      progress := progress + reports;
      transcript.segments := transcript.segments[i := seg];
      i := i + 1;
    }
    if reportProgress {
      progress := progress + [100.0];
    }
    result := transcript;
  }

  /** One iteration of the segment loop: report, assign the segment, then visit its words. */
  method VisitSegment(rows: seq<Row>, seg: Segment, i: nat, n: nat, fillNearest: bool, reportProgress: bool)
    returns (fused: Segment, reports: seq<real>)
    requires i < n
    ensures fused == FuseSegment(seg, rows, fillNearest)
    ensures reports == if reportProgress then SegmentReports(i, n, seg) else []
  {
    var startReports := if reportProgress then [SegmentStart(i, n)] else [];
    var speaker := AssignSpeaker(seg.speaker, rows, seg.start, seg.end, fillNearest);
    var words, wordReports := VisitWordList(rows, seg.words, i, n, fillNearest, reportProgress);
    fused := seg.(speaker := speaker, words := words);
    SegmentReportsJoin(i, n, seg, reportProgress, startReports, wordReports);
    reports := startReports + wordReports;
  }

  /** The word loop when the segment has a `words` key; nothing happens without one. */
  method VisitWordList(rows: seq<Row>, words: Option<seq<Word>>, i: nat, n: nat, fillNearest: bool, reportProgress: bool)
    returns (fused: Option<seq<Word>>, reports: seq<real>)
    requires i < n
    ensures fused == FuseWordList(words, rows, fillNearest)
    ensures reports == if reportProgress then WordsReports(i, n, words) else []
  {
    fused, reports := words, [];
    if words.Some? {
      var visited;
      visited, reports := VisitWords(rows, words.value, i, n, fillNearest, reportProgress);
      fused := Some(visited);
    }
  }

  /** The callback call for word `j` of segment `i`, made only when a callback is given. */
  method ReportWord(i: nat, n: nat, w: nat, j: nat, reportProgress: bool, reports: seq<real>) returns (extended: seq<real>)
    requires n > 0 && j < w
    requires reports == if reportProgress then WordReports(i, n, w, j) else []
    ensures extended == if reportProgress then WordReports(i, n, w, j + 1) else []
  {
    extended := reports;
    if reportProgress {
      WordReportsStep(i, n, w, j);
      extended := reports + [WordStep(i, n, j, w)];
    }
  }

  /** One word of the word loop: a word with a `start` gets the speaker chosen for its span, if any. */
  method VisitWord(rows: seq<Row>, word: Word, fillNearest: bool) returns (visited: Word)
    ensures visited == FuseWord(word, rows, fillNearest)
  {
    visited := word;
    if word.timing.Some? {
      var speaker := AssignSpeaker(word.speaker, rows, word.timing.value.start, word.timing.value.end, fillNearest);
      visited := word.(speaker := speaker);
    }
  }

  /**
   * The speaker step for one unit: choose among the candidate rows and overwrite the unit's
   * `speaker` key, or leave it alone when there is no candidate.
   */
  method AssignSpeaker(current: Option<string>, rows: seq<Row>, s: real, e: real, fillNearest: bool)
    returns (speaker: Option<string>)
    ensures speaker == AssignUnit(current, rows, s, e, fillNearest)
  {
    speaker := current;
    var chosen := Choose(rows, s, e, fillNearest);
    if chosen.Some? {
      speaker := chosen;
    }
  }

  /** The word loop of segment `i`: report word `j`, then assign it if it has a `start`. */
  method VisitWords(rows: seq<Row>, words0: seq<Word>, i: nat, n: nat, fillNearest: bool, reportProgress: bool)
    returns (words: seq<Word>, reports: seq<real>)
    requires i < n
    ensures words == FuseWords(words0, rows, fillNearest)
    ensures reports == if reportProgress then WordReports(i, n, |words0|, |words0|) else []
  {
    ghost var target := FuseWords(words0, rows, fillNearest);
    words := words0;
    reports := [];
    var total := |words|;
    assert WordReports(i, n, total, 0) == [];
    var j := 0;
    while j < total
      invariant 0 <= j <= total == |words0| == |target|
      invariant words == target[..j] + words0[j..]
      invariant reports == if reportProgress then WordReports(i, n, total, j) else []
    {
      reports := ReportWord(i, n, total, j, reportProgress, reports);
      assert words[j] == words0[j];
      var word := VisitWord(rows, words[j], fillNearest);
      SpliceStep(target, words0, j);
      words := words[j := word];
      j := j + 1;
    }
    assert target[..total] + words0[total..] == target;
  }
}
