/** What the fuser promises: who is assigned, what stays unchanged, and how progress moves. */
module DiarizeFacts {
  import opened Common
  import opened Diarize

  // ---------------------------------------------------------------------------
  // The choice of speaker
  // ---------------------------------------------------------------------------

  /** The chosen speaker belongs to a candidate row and has the largest group sum among the candidates. */
  lemma ChooseIsMaximal(rows: seq<Row>, s: real, e: real, fillNearest: bool)
    ensures Choose(rows, s, e, fillNearest).Some? ==>
      var c := Candidates(rows, s, e, fillNearest);
      var k := Choose(rows, s, e, fillNearest).value;
      (exists row :: row in c && row.speaker == k) &&
      forall row :: row in c ==> SpeakerSum(c, row.speaker, s, e) <= SpeakerSum(c, k, s, e)
  {
    var c := Candidates(rows, s, e, fillNearest);
    if |c| > 0 {
      var ks := Speakers(c);
      var k := BestSpeaker(c, ks, s, e);
      BestSpeakerIsMaximal(c, ks, s, e);
      assert Choose(rows, s, e, fillNearest).value == k;
      var i :| 0 <= i < |ks| && ks[i] == k;
      assert c[i] in c && c[i].speaker == k;
      forall row | row in c ensures SpeakerSum(c, row.speaker, s, e) <= SpeakerSum(c, k, s, e) {
        var m :| 0 <= m < |c| && c[m] == row;
        assert ks[m] == row.speaker;
      }
    }
  }

  /** Without `fill_nearest` a unit gets a speaker exactly when some row overlaps it positively. */
  lemma AssignedIffPositiveOverlap(rows: seq<Row>, s: real, e: real)
    ensures Choose(rows, s, e, false).Some? <==> exists i :: 0 <= i < |rows| && Intersection(rows[i], s, e) > 0.0
  {
    var c := Positive(rows, s, e);
    PositiveKeepsOverlapping(rows, s, e);
    if |c| > 0 {
      assert c[0] in c;
      var i :| 0 <= i < |rows| && rows[i] == c[0];
    }
    if exists i :: 0 <= i < |rows| && Intersection(rows[i], s, e) > 0.0 {
      var i :| 0 <= i < |rows| && Intersection(rows[i], s, e) > 0.0;
      assert rows[i] in rows;
      assert rows[i] in c;
    }
  }

  /** A unit that no row overlaps positively keeps its `speaker` key as it was. */
  lemma UnassignedUnitKeepsSpeaker(current: Option<string>, rows: seq<Row>, s: real, e: real)
    requires forall i :: 0 <= i < |rows| ==> Intersection(rows[i], s, e) <= 0.0
    ensures AssignUnit(current, rows, s, e, false) == current
  {
    AssignedIffPositiveOverlap(rows, s, e);
  }

  /** The positive part of the overlap; summing it is the "clamp then sum" reading of the rule. */
  function Clamped(d: real): (r: real)
    ensures r >= 0.0 && r >= d && (r == 0.0 || r == d)
  {
    if d > 0.0 then d else 0.0
  }

  /** Total clamped overlap of speaker `k`'s rows with [s, e], over the whole table. */
  function ClampedSum(rows: seq<Row>, k: string, s: real, e: real): real
  {
    if rows == [] then 0.0
    else (if rows[0].speaker == k then Clamped(Intersection(rows[0], s, e)) else 0.0) + ClampedSum(rows[1..], k, s, e)
  }

  /** Filtering to positive overlaps and then summing equals clamping and then summing. */
  lemma {:induction false} FilterThenSumIsClampThenSum(rows: seq<Row>, k: string, s: real, e: real)
    ensures SpeakerSum(Positive(rows, s, e), k, s, e) == ClampedSum(rows, k, s, e)
  {
    if rows != [] {
      FilterThenSumIsClampThenSum(rows[1..], k, s, e);
      if Intersection(rows[0], s, e) > 0.0 {
        var c := [rows[0]] + Positive(rows[1..], s, e);
        assert c[1..] == Positive(rows[1..], s, e);
      }
    }
  }

  /** On rows that all overlap positively, a speaker present among them has a positive sum. */
  lemma {:induction false} PresentSpeakerHasPositiveSum(c: seq<Row>, k: string, s: real, e: real)
    requires forall row :: row in c ==> Intersection(row, s, e) > 0.0
    ensures SpeakerSum(c, k, s, e) >= 0.0
    ensures (exists row :: row in c && row.speaker == k) ==> SpeakerSum(c, k, s, e) > 0.0
  {
    if c != [] {
      assert c[0] in c;
      assert forall row :: row in c[1..] ==> row in c;
      PresentSpeakerHasPositiveSum(c[1..], k, s, e);
      if exists row :: row in c && row.speaker == k {
        var row :| row in c && row.speaker == k;
        if row != c[0] {
          var m :| 0 <= m < |c| && c[m] == row;
          assert c[1..][m - 1] == row;
        }
      }
    }
  }

  /** A speaker absent from the rows sums to zero. */
  lemma {:induction false} AbsentSpeakerSumsToZero(c: seq<Row>, k: string, s: real, e: real)
    requires forall row :: row in c ==> row.speaker != k
    ensures SpeakerSum(c, k, s, e) == 0.0
  {
    if c != [] {
      assert c[0] in c;
      assert forall row :: row in c[1..] ==> row in c;
      AbsentSpeakerSumsToZero(c[1..], k, s, e);
    }
  }

  /**
   * Without `fill_nearest`, the assigned speaker has a positive total overlap and no speaker
   * at all (present in the table or not) has a larger one.
   */
  lemma ChosenSpeakerMaximizesOverlap(rows: seq<Row>, s: real, e: real, k: string)
    requires Choose(rows, s, e, false).Some?
    ensures ClampedSum(rows, Choose(rows, s, e, false).value, s, e) > 0.0
    ensures ClampedSum(rows, k, s, e) <= ClampedSum(rows, Choose(rows, s, e, false).value, s, e)
  {
    var c := Positive(rows, s, e);
    var b := Choose(rows, s, e, false).value;
    PositiveKeepsOverlapping(rows, s, e);
    ChooseIsMaximal(rows, s, e, false);
    FilterThenSumIsClampThenSum(rows, k, s, e);
    FilterThenSumIsClampThenSum(rows, b, s, e);
    PresentSpeakerHasPositiveSum(c, b, s, e);
    if exists row :: row in c && row.speaker == k {
      var row :| row in c && row.speaker == k;
      assert SpeakerSum(c, row.speaker, s, e) <= SpeakerSum(c, b, s, e);
    } else {
      AbsentSpeakerSumsToZero(c, k, s, e);
    }
  }

  /** With `fill_nearest` and a non-empty table every visited unit receives a speaker. */
  lemma FillNearestAlwaysAssigns(rows: seq<Row>, s: real, e: real)
    requires |rows| > 0
    ensures Choose(rows, s, e, true).Some?
    ensures Choose(rows, s, e, true).value in Speakers(rows)
  {
    ChooseIsMaximal(rows, s, e, true);
    var row :| row in rows && row.speaker == Choose(rows, s, e, true).value;
    var m :| 0 <= m < |rows| && rows[m] == row;
    assert Speakers(rows)[m] == row.speaker;
  }

  /**
   * A unit overlapped positively only by rows of speaker `k` (for instance one contained in a
   * turn of `k` that no other speaker's turn touches) is assigned `k`.
   */
  lemma SoleOverlappingSpeakerWins(rows: seq<Row>, s: real, e: real, k: string)
    requires exists i :: 0 <= i < |rows| && Intersection(rows[i], s, e) > 0.0
    requires forall i :: 0 <= i < |rows| && Intersection(rows[i], s, e) > 0.0 ==> rows[i].speaker == k
    ensures Choose(rows, s, e, false) == Some(k)
  {
    AssignedIffPositiveOverlap(rows, s, e);
    PositiveKeepsOverlapping(rows, s, e);
    ChooseIsMaximal(rows, s, e, false);
    var row :| row in Positive(rows, s, e) && row.speaker == Choose(rows, s, e, false).value;
    var m :| 0 <= m < |rows| && rows[m] == row;
  }

  /** The worked example: turns A over [0, 5] and B over [5, 10]. */
  lemma TwoSpeakerExample()
    ensures Choose([Row(0.0, 5.0, "A"), Row(5.0, 10.0, "B")], 2.0, 6.0, false) == Some("A")
    ensures Choose([Row(0.0, 5.0, "A"), Row(5.0, 10.0, "B")], 6.0, 9.0, false) == Some("B")
  {
    var rows := [Row(0.0, 5.0, "A"), Row(5.0, 10.0, "B")];
    assert Intersection(rows[0], 2.0, 6.0) == 3.0;
    assert Intersection(rows[1], 2.0, 6.0) == 1.0;
    assert rows[1..] == [rows[1]];
    assert Positive(rows, 2.0, 6.0) == rows;
    assert SpeakerSum(rows, "A", 2.0, 6.0) == 3.0;
    assert SpeakerSum(rows, "B", 2.0, 6.0) == 1.0;
    assert Speakers(rows) == ["A", "B"];
    assert Intersection(rows[0], 6.0, 9.0) == -1.0;
    SoleOverlappingSpeakerWins(rows, 6.0, 9.0, "B");
  }

  /** An empty table leaves every unit unassigned. */
  lemma EmptyTableAssignsNothing(s: real, e: real, fillNearest: bool)
    ensures Choose([], s, e, fillNearest) == None
  {
  }

  // ---------------------------------------------------------------------------
  // The transcript as a whole
  // ---------------------------------------------------------------------------

  /** `after` differs from `before` at most in `speaker` keys. */
  ghost predicate OnlySpeakersDiffer(before: seq<Segment>, after: seq<Segment>)
  {
    && |after| == |before|
    && forall i :: 0 <= i < |before| ==>
         && after[i].start == before[i].start
         && after[i].end == before[i].end
         && after[i].text == before[i].text
         && after[i].words.Some? == before[i].words.Some?
         && (before[i].words.Some? ==>
               && |after[i].words.value| == |before[i].words.value|
               && forall j :: 0 <= j < |before[i].words.value| ==>
                    && after[i].words.value[j].text == before[i].words.value[j].text
                    && after[i].words.value[j].timing == before[i].words.value[j].timing)
  }

  /** Segment and word counts, order, text and times are unchanged; only speakers change. */
  lemma FuseChangesOnlySpeakers(segs: seq<Segment>, rows: seq<Row>, fillNearest: bool)
    ensures OnlySpeakersDiffer(segs, Fuse(segs, rows, fillNearest))
  {
  }

  /** Words without timing are left exactly as they were, speaker included. */
  lemma UntimedWordUnchanged(seg: Segment, rows: seq<Row>, fillNearest: bool, j: nat)
    requires seg.words.Some? && j < |seg.words.value| && seg.words.value[j].timing.None?
    ensures FuseSegment(seg, rows, fillNearest).words.value[j] == seg.words.value[j]
  {
  }

  /** A word's result depends on neither the segment's times nor the segment's own result. */
  lemma WordsIndependentOfSegment(seg: Segment, rows: seq<Row>, fillNearest: bool,
                                  start: real, end: real, speaker: Option<string>)
    ensures FuseSegment(seg.(start := start, end := end, speaker := speaker), rows, fillNearest).words
         == FuseSegment(seg, rows, fillNearest).words
  {
  }

  /** The segment's result does not depend on its words. */
  lemma SegmentIndependentOfWords(seg: Segment, rows: seq<Row>, fillNearest: bool, words: Option<seq<Word>>)
    ensures FuseSegment(seg.(words := words), rows, fillNearest).speaker == FuseSegment(seg, rows, fillNearest).speaker
  {
  }

  lemma AssignUnitIdempotent(current: Option<string>, rows: seq<Row>, s: real, e: real, fillNearest: bool)
    ensures AssignUnit(AssignUnit(current, rows, s, e, fillNearest), rows, s, e, fillNearest)
         == AssignUnit(current, rows, s, e, fillNearest)
  {
  }

  /** A second run with the same table re-derives the same speakers: fusing is idempotent. */
  lemma FuseIdempotent(segs: seq<Segment>, rows: seq<Row>, fillNearest: bool)
    ensures Fuse(Fuse(segs, rows, fillNearest), rows, fillNearest) == Fuse(segs, rows, fillNearest)
  {
    var once := Fuse(segs, rows, fillNearest);
    forall i | 0 <= i < |segs|
      ensures FuseSegment(once[i], rows, fillNearest) == once[i]
    {
      var seg := segs[i];
      AssignUnitIdempotent(seg.speaker, rows, seg.start, seg.end, fillNearest);
      if seg.words.Some? {
        var ws := seg.words.value;
        var fw := FuseWords(ws, rows, fillNearest);
        forall j | 0 <= j < |ws| ensures FuseWord(fw[j], rows, fillNearest) == fw[j] {
          if ws[j].timing.Some? {
            var sp := ws[j].timing.value;
            AssignUnitIdempotent(ws[j].speaker, rows, sp.start, sp.end, fillNearest);
          }
        }
        assert FuseWords(fw, rows, fillNearest) == fw;
      }
    }
  }

  /** An empty table leaves the whole transcript unchanged. */
  lemma EmptyTableLeavesTranscript(segs: seq<Segment>, fillNearest: bool)
    ensures Fuse(segs, [], fillNearest) == segs
  {
    forall i | 0 <= i < |segs| ensures FuseSegment(segs[i], [], fillNearest) == segs[i] {
      if segs[i].words.Some? {
        var ws := segs[i].words.value;
        assert FuseWords(ws, [], fillNearest) == ws;
      }
    }
  }

  // ---------------------------------------------------------------------------
  // Progress
  // ---------------------------------------------------------------------------

  ghost predicate Sorted(xs: seq<real>)
  {
    forall a, b :: 0 <= a < b < |xs| ==> xs[a] <= xs[b]
  }

  ghost predicate Within(xs: seq<real>, lo: real, hi: real)
  {
    forall a :: 0 <= a < |xs| ==> lo <= xs[a] <= hi
  }

  lemma SortedConcat(xs: seq<real>, ys: seq<real>, mid: real)
    requires Sorted(xs) && Sorted(ys)
    requires forall a :: 0 <= a < |xs| ==> xs[a] <= mid
    requires forall b :: 0 <= b < |ys| ==> mid <= ys[b]
    ensures Sorted(xs + ys)
  {
  }

  /** 100 split evenly: segment `i + 1` starts where segment `i` starts plus `100 / n`. */
  lemma SegmentStartStep(i: nat, n: nat)
    requires n > 0
    ensures SegmentStart(i + 1, n) == SegmentStart(i, n) + 100.0 / n as real
    ensures SegmentStart(0, n) == 0.0 && SegmentStart(n, n) == 100.0
    ensures 100.0 / n as real > 0.0
  {
    var nr := n as real;
    assert (i as real + 1.0) / nr == i as real / nr + 1.0 / nr;
    assert 100.0 / nr == (1.0 / nr) * 100.0;
  }

  lemma SegmentStartMonotone(i: nat, i': nat, n: nat)
    requires n > 0 && i <= i'
    ensures SegmentStart(i, n) <= SegmentStart(i', n)
  {
    var nr := n as real;
    assert i as real / nr <= i' as real / nr;
  }

  /** Word `j` of `w` reports at least its segment's start and strictly less than the next segment's. */
  lemma WordStepBounds(i: nat, n: nat, j: nat, w: nat)
    requires n > 0 && j < w
    ensures SegmentStart(i, n) <= WordStep(i, n, j, w) < SegmentStart(i + 1, n)
  {
    SegmentStartStep(i, n);
    var u := 100.0 / n as real;
    var f := j as real / w as real;
    assert 0.0 <= f < 1.0;
    assert 0.0 <= f * u < u;
  }

  lemma WordStepMonotone(i: nat, n: nat, j: nat, j': nat, w: nat)
    requires n > 0 && j <= j' < w
    ensures WordStep(i, n, j, w) <= WordStep(i, n, j', w)
  {
    SegmentStartStep(i, n);
    var u := 100.0 / n as real;
    var f := j as real / w as real;
    var f' := j' as real / w as real;
    assert f <= f';
    assert f * u <= f' * u;
  }

  /** The reports of one segment are sorted and lie in [start of segment i, start of segment i + 1]. */
  lemma SegmentReportsFacts(i: nat, n: nat, seg: Segment)
    requires i < n
    ensures Sorted(SegmentReports(i, n, seg))
    ensures Within(SegmentReports(i, n, seg), SegmentStart(i, n), SegmentStart(i + 1, n))
  {
    SegmentStartStep(i, n);
    var r := SegmentReports(i, n, seg);
    if seg.words.Some? {
      var w := |seg.words.value|;
      var ws := WordReports(i, n, w, w);
      forall a | 0 <= a < w ensures SegmentStart(i, n) <= ws[a] < SegmentStart(i + 1, n) {
        WordStepBounds(i, n, a, w);
      }
      forall a, b | 0 <= a < b < w ensures ws[a] <= ws[b] {
        WordStepMonotone(i, n, a, b, w);
      }
      SortedConcat([SegmentStart(i, n)], ws, SegmentStart(i, n));
    }
  }

  lemma {:induction false} ReportsUpToFacts(segs: seq<Segment>, k: nat)
    requires 0 < k <= |segs|
    ensures Sorted(ReportsUpTo(segs, k))
    ensures Within(ReportsUpTo(segs, k), 0.0, SegmentStart(k, |segs|))
  {
    var n := |segs|;
    SegmentReportsFacts(k - 1, n, segs[k - 1]);
    SegmentStartMonotone(0, k - 1, n);
    SegmentStartStep(k - 1, n);
    if k > 1 {
      ReportsUpToFacts(segs, k - 1);
      SortedConcat(ReportsUpTo(segs, k - 1), SegmentReports(k - 1, n, segs[k - 1]), SegmentStart(k - 1, n));
    } else {
      assert ReportsUpTo(segs, 0) == [];
      assert ReportsUpTo(segs, 1) == SegmentReports(0, n, segs[0]);
    }
  }

  /**
   * The values handed to the progress callback never decrease, stay within [0, 100], and the
   * last one is exactly 100; with no segments 100 is the only report.
   */
  lemma ProgressMonotone(segs: seq<Segment>)
    ensures Sorted(ProgressReports(segs))
    ensures Within(ProgressReports(segs), 0.0, 100.0)
    ensures ProgressReports(segs)[|ProgressReports(segs)| - 1] == 100.0
    ensures |segs| == 0 ==> ProgressReports(segs) == [100.0]
  {
    var n := |segs|;
    if n > 0 {
      ReportsUpToFacts(segs, n);
      SegmentStartStep(0, n);
      SortedConcat(ReportsUpTo(segs, n), [100.0], 100.0);
    }
  }
}
