/**
 * What both audio extractors share: the ffmpeg command line, the `time=HH:MM:SS.ss` progress
 * pattern searched in each stderr line, and the percentage computed from it.
 */
module FfmpegProgress {
  import opened Common

  /** `['ffmpeg', '-i', video, '-q:a', '0', '-map', 'a', audio, '-y']`. */
  function Command(videoFile: string, audioFile: string): (command: seq<string>)
    ensures |command| == 9 && command[0] == "ffmpeg"
    ensures command[1] == "-i" && command[2] == videoFile && command[7] == audioFile && command[8] == "-y"
    ensures command[3..7] == ["-q:a", "0", "-map", "a"]
  {
    ["ffmpeg", "-i", videoFile, "-q:a", "0", "-map", "a", audioFile, "-y"]
  }

  /** `\d`, restricted to the ASCII digits. */
  predicate IsDigit(c: char)
  {
    '0' <= c <= '9'
  }

  predicate AllDigits(s: string)
  {
    forall k :: 0 <= k < |s| ==> IsDigit(s[k])
  }

  /** Length of the longest run of digits `s` starts with. */
  function DigitSpan(s: string): (n: nat)
    ensures n <= |s| && AllDigits(s[..n])
    ensures n < |s| ==> !IsDigit(s[n])
  {
    if s != [] && IsDigit(s[0]) then
      var n := 1 + DigitSpan(s[1..]);
      assert forall k :: 1 <= k < n ==> s[..n][k] == s[1..][..n - 1][k - 1];
      n
    else 0
  }

  lemma {:induction false} DigitSpanOf(ds: string, rest: string)
    requires AllDigits(ds) && (rest == [] || !IsDigit(rest[0]))
    ensures DigitSpan(ds + rest) == |ds|
  {
    if ds == [] {
      assert ds + rest == rest;
    } else {
      assert (ds + rest)[1..] == ds[1..] + rest;
      assert (ds + rest)[0] == ds[0];
      DigitSpanOf(ds[1..], rest);
    }
  }

  /** A non-empty digit run closed by `sep`: the digits and what follows the separator. */
  function Field(s: string, sep: char): (f: Option<(string, string)>)
    ensures f.Some? ==> f.value.0 != [] && AllDigits(f.value.0) && s == f.value.0 + ([sep] + f.value.1)
  {
    var n := DigitSpan(s);
    if n == 0 || n >= |s| || s[n] != sep then None else Some((s[..n], s[n + 1..]))
  }

  lemma FieldOf(ds: string, sep: char, rest: string)
    requires ds != [] && AllDigits(ds) && !IsDigit(sep)
    ensures Field(ds + ([sep] + rest), sep) == Some((ds, rest))
  {
    DigitSpanOf(ds, [sep] + rest);
    var s := ds + ([sep] + rest);
    assert s[..|ds|] == ds && s[|ds|] == sep && s[|ds| + 1..] == rest;
  }

  /** `int(ds)` for a string of ASCII digits. */
  function DigitsValue(ds: string): (v: nat)
  {
    if ds == [] then 0
    else
      var last := ds[|ds| - 1];
      DigitsValue(ds[..|ds| - 1]) * 10 + (if IsDigit(last) then (last as int - '0' as int) else 0)
  }

  function Pow10(n: nat): (p: nat)
    ensures p >= 1
  {
    if n == 0 then 1 else 10 * Pow10(n - 1)
  }

  /** The value of `.ff` read as a decimal fraction. */
  function FracValue(ff: string): real
  {
    DigitsValue(ff) as real / Pow10(|ff|) as real
  }

  /** The three groups of a match, the seconds split at their dot. */
  datatype Groups = Groups(hours: string, minutes: string, seconds: string, fraction: string)

  /** `hours * 3600 + minutes * 60 + seconds`. */
  function Seconds(g: Groups): real
  {
    DigitsValue(g.hours) as real * 3600.0 + DigitsValue(g.minutes) as real * 60.0
      + DigitsValue(g.seconds) as real + FracValue(g.fraction)
  }

  /** `"time=" in line`. */
  predicate HasMarker(line: string)
  {
    exists p :: 0 <= p <= |line| && StartsWith(line[p..], "time=")
  }

  /** Every group of a match is a non-empty run of digits. */
  predicate WellFormed(g: Groups)
  {
    && g.hours != [] && AllDigits(g.hours) && g.minutes != [] && AllDigits(g.minutes)
    && g.seconds != [] && AllDigits(g.seconds) && g.fraction != [] && AllDigits(g.fraction)
  }

  /** The text `time=<hours>:<minutes>:<seconds>.<fraction>` the groups were read from. */
  function Pattern(g: Groups): string
  {
    "time=" + (g.hours + (":" + (g.minutes + (":" + (g.seconds + ("." + g.fraction))))))
  }

  lemma PatternThen(g: Groups, rest: string)
    ensures Pattern(g) + rest
         == "time=" + (g.hours + (":" + (g.minutes + (":" + (g.seconds + ("." + (g.fraction + rest)))))))
  {
  }

  /**
   * The pattern `time=(\d+):(\d+):(\d+\.\d+)` at the start of `s`. Each digit run is maximal: a
   * shorter run would be followed by a digit, not by the `:` or `.` the pattern needs next.
   */
  function MatchHere(s: string): Option<Groups>
  {
    if !StartsWith(s, "time=") then None
    else match Field(s[5..], ':')
      case None => None
      case Some((hours, r1)) =>
        match Field(r1, ':')
        case None => None
        case Some((minutes, r2)) =>
          match Field(r2, '.')
          case None => None
          case Some((seconds, r3)) =>
            var d := DigitSpan(r3);
            if d == 0 then None else Some(Groups(hours, minutes, seconds, r3[..d]))
  }

  /**
   * A match spells out its groups: each one a non-empty digit run, together the text
   * `time=hh:mm:ss.ff` at the start of `s`, with no digit right after `ff`.
   */
  lemma MatchHereIsPattern(s: string)
    ensures MatchHere(s).Some? ==> WellFormed(MatchHere(s).value) && StartsWith(s, Pattern(MatchHere(s).value))
    ensures MatchHere(s).Some? ==> |Pattern(MatchHere(s).value)| == |s| || !IsDigit(s[|Pattern(MatchHere(s).value)|])
  {
    if MatchHere(s).Some? {
      var f0 := Field(s[5..], ':').value;
      var f1 := Field(f0.1, ':').value;
      var f2 := Field(f1.1, '.').value;
      var r3 := f2.1;
      var d := DigitSpan(r3);
      var g := Groups(f0.0, f1.0, f2.0, r3[..d]);
      assert MatchHere(s) == Some(g);
      SplitAtDigitSpan(r3);
      MatchedText(s, g, f0.1, f1.1, r3, r3[d..]);
    }
  }

  /** The digit run a string starts with, and what follows it. */
  lemma SplitAtDigitSpan(r: string)
    ensures r == r[..DigitSpan(r)] + r[DigitSpan(r)..]
    ensures r[DigitSpan(r)..] == [] || !IsDigit(r[DigitSpan(r)..][0])
  {
  }

  lemma MatchedText(s: string, g: Groups, r1: string, r2: string, r3: string, rest: string)
    requires StartsWith(s, "time=") && s[5..] == g.hours + ([':'] + r1)
    requires r1 == g.minutes + ([':'] + r2) && r2 == g.seconds + (['.'] + r3) && r3 == g.fraction + rest
    requires WellFormed(g) && (rest == [] || !IsDigit(rest[0]))
    ensures WellFormed(g) && StartsWith(s, Pattern(g))
    ensures |Pattern(g)| == |s| || !IsDigit(s[|Pattern(g)|])
  {
    PatternThen(g, rest);
    assert s == s[..5] + s[5..];
    assert s == Pattern(g) + rest;
    assert s[..|Pattern(g)|] == Pattern(g);
    if |Pattern(g)| < |s| {
      assert s[|Pattern(g)|] == rest[0];
    }
  }

  /**
   * Conversely, the groups are read back from their own text, followed by anything that does not
   * continue the fraction's digits.
   */
  lemma MatchHereOfPattern(g: Groups, rest: string)
    requires WellFormed(g)
    requires rest == [] || !IsDigit(rest[0])
    ensures MatchHere(Pattern(g) + rest) == Some(g)
  {
    var r3 := g.fraction + rest;
    var r2 := g.seconds + ("." + r3);
    var r1 := g.minutes + (":" + r2);
    var r0 := g.hours + (":" + r1);
    var m := Pattern(g) + rest;
    PatternThen(g, rest);
    assert m == "time=" + r0;
    assert m[..5] == "time=" && m[5..] == r0;
    FieldOf(g.hours, ':', r1);
    FieldOf(g.minutes, ':', r2);
    FieldOf(g.seconds, '.', r3);
    DigitSpanOf(g.fraction, rest);
    assert r3[..|g.fraction|] == g.fraction;
  }

  /** `re.search`: the match at the leftmost position where there is one. */
  function Search(line: string): Option<Groups>
  {
    if MatchHere(line).Some? then MatchHere(line)
    else if line == [] then None
    else Search(line[1..])
  }

  /**
   * `Search` finds the leftmost position where the pattern matches, and nothing when it matches
   * nowhere.
   */
  lemma {:induction false} SearchIsLeftmostMatch(line: string)
    ensures Search(line).Some? ==>
      exists p :: (0 <= p <= |line| && MatchHere(line[p..]) == Search(line)
        && forall q :: 0 <= q < p ==> MatchHere(line[q..]).None?)
    ensures Search(line).None? ==> forall p :: 0 <= p <= |line| ==> MatchHere(line[p..]).None?
  {
    assert line[0..] == line;
    if MatchHere(line).None? && line != [] {
      SearchIsLeftmostMatch(line[1..]);
      forall p | 0 <= p < |line| ensures line[1..][p..] == line[p + 1..] { }
      if Search(line).Some? {
        var p :| 0 <= p <= |line[1..]| && MatchHere(line[1..][p..]) == Search(line[1..])
          && forall q :: 0 <= q < p ==> MatchHere(line[1..][q..]).None?;
        forall q | 0 <= q < p + 1 ensures MatchHere(line[q..]).None? {
          if q > 0 { assert line[q..] == line[1..][q - 1..]; }
        }
      } else {
        forall p | 0 <= p <= |line| ensures MatchHere(line[p..]).None? {
          if p > 0 { assert line[p..] == line[1..][p - 1..]; }
        }
      }
    }
  }

  /**
   * A time is reported exactly when the line holds `time=hh:mm:ss.ff` with non-empty digit runs,
   * and it is the time of the leftmost such occurrence.
   */
  lemma ReportedTimeHasPattern(line: string)
    ensures ParseTime(line).Some? ==>
      exists p, g :: (0 <= p <= |line| && MatchHere(line[p..]) == Some(g)
        && WellFormed(g) && StartsWith(line[p..], Pattern(g)) && ParseTime(line) == Some(Seconds(g)))
    ensures ParseTime(line).None? ==> forall p :: 0 <= p <= |line| ==> MatchHere(line[p..]).None?
  {
    SearchIsLeftmostMatch(line);
    if ParseTime(line).Some? {
      var p :| 0 <= p <= |line| && MatchHere(line[p..]) == Search(line);
      MatchHereIsPattern(line[p..]);
    }
  }

  /** The time a stderr line reports, in seconds, if it matches the pattern. */
  function ParseTime(line: string): Option<real>
  {
    match Search(line)
    case None => None
    case Some(g) => Some(Seconds(g))
  }

  /** The `"time=" in line` guard is implied by a match, so it never changes the outcome. */
  lemma {:induction false} MatchNeedsMarker(line: string)
    ensures Search(line).Some? ==> HasMarker(line)
  {
    if Search(line).Some? {
      if MatchHere(line).Some? {
        assert line[0..] == line;
      } else {
        MatchNeedsMarker(line[1..]);
        var p :| 0 <= p <= |line[1..]| && StartsWith(line[1..][p..], "time=");
        assert line[1..][p..] == line[p + 1..];
      }
    }
  }

  /** A line without the marker reports nothing. */
  lemma NoMarkerNoTime(line: string)
    requires !HasMarker(line)
    ensures ParseTime(line) == None
  {
    MatchNeedsMarker(line);
  }

  /** Text without a `t` cannot start a match, so the search passes over it. */
  lemma {:induction false} SearchPastPrefix(prefix: string, s: string)
    requires 't' !in prefix
    ensures Search(prefix + s) == Search(s)
  {
    if prefix != [] {
      var line := prefix + s;
      assert line[0] == prefix[0] && line[0] != 't';
      assert !StartsWith(line, "time=") by {
        if |line| >= 5 { assert line[..5][0] == line[0]; }
      }
      assert line[1..] == prefix[1..] + s;
      SearchPastPrefix(prefix[1..], s);
    } else {
      assert prefix + s == s;
    }
  }

  /**
   * A line holding `time=hh:mm:ss.ff` reports that many seconds, whatever precedes the marker
   * (as long as it holds no `t`, so no earlier match) and whatever follows `ff` (as long as it
   * does not continue the digits).
   */
  lemma ParseTimeOfProgressLine(prefix: string, hh: string, mm: string, ss: string, ff: string, rest: string)
    requires 't' !in prefix
    requires hh != [] && mm != [] && ss != [] && ff != []
    requires AllDigits(hh) && AllDigits(mm) && AllDigits(ss) && AllDigits(ff)
    requires rest == [] || !IsDigit(rest[0])
    ensures ParseTime(prefix + ("time=" + (hh + (":" + (mm + (":" + (ss + ("." + (ff + rest)))))))))
         == Some(Seconds(Groups(hh, mm, ss, ff)))
  {
    var r3 := ff + rest;
    var r2 := ss + ("." + r3);
    var r1 := mm + (":" + r2);
    var r0 := hh + (":" + r1);
    var m := "time=" + r0;
    SearchPastPrefix(prefix, m);
    assert m[..5] == "time=" && m[5..] == r0;
    FieldOf(hh, ':', r1);
    FieldOf(mm, ':', r2);
    FieldOf(ss, '.', r3);
    DigitSpanOf(ff, rest);
    assert r3[..|ff|] == ff;
    assert MatchHere(m) == Some(Groups(hh, mm, ss, ff));
  }

  /** A typical ffmpeg status line: one minute thirty and a half seconds in. */
  lemma StatusLineExample(stats: string)
    requires 't' !in stats
    ensures ParseTime(stats + "time=00:01:30.50 bitrate=") == Some(90.5)
  {
    var hh, mm, ss, ff, rest := "00", "01", "30", "50", " bitrate=";
    assert AllDigits(hh) && AllDigits(mm) && AllDigits(ss) && AllDigits(ff) && rest[0] == ' ';
    ParseTimeOfProgressLine(stats, hh, mm, ss, ff, rest);
    ExampleLineParts(hh, mm, ss, ff, rest);
    ExampleSeconds();
  }

  lemma ExampleLineParts(hh: string, mm: string, ss: string, ff: string, rest: string)
    requires hh == "00" && mm == "01" && ss == "30" && ff == "50" && rest == " bitrate="
    ensures "time=" + (hh + (":" + (mm + (":" + (ss + ("." + (ff + rest))))))) == "time=00:01:30.50 bitrate="
  {
  }

  lemma ExampleSeconds()
    ensures Seconds(Groups("00", "01", "30", "50")) == 90.5
  {
    DigitPairValue("00", '0', '0');
    DigitPairValue("01", '0', '1');
    DigitPairValue("30", '3', '0');
    DigitPairValue("50", '5', '0');
    assert Pow10(2) == 100;
  }

  lemma DigitPairValue(ds: string, a: char, b: char)
    requires ds == [a, b] && IsDigit(a) && IsDigit(b)
    ensures DigitsValue(ds) == (a as int - '0' as int) * 10 + (b as int - '0' as int)
  {
    var front := ds[..1];
    assert front == [a] && front[..0] == [];
    assert DigitsValue(front) == a as int - '0' as int;
    assert ds[|ds| - 1] == b;
  }

  lemma DigitsHaveNoT(ds: string)
    requires AllDigits(ds)
    ensures 't' !in ds
  {
    assert forall i :: 0 <= i < |ds| ==> ds[i] != 't';
  }

  /** A failed match at a lone marker is the only chance a line without other `t`s has. */
  lemma LoneMarkerMisses(x: string)
    requires MatchHere("time=" + x) == None && 't' !in x
    ensures Search("time=" + x) == None
  {
    var m := "time=" + x;
    var tail := m[1..];
    forall i | 0 <= i < |tail| ensures tail[i] != 't' {
      if i < 4 {
        assert tail[i] == "time="[i + 1];
      } else {
        assert tail[i] == x[i - 4];
      }
    }
    SearchPastPrefix(tail, []);
    assert tail + [] == tail;
  }

  /** Whole seconds without a fraction do not match: such a line reports nothing. */
  lemma WholeSecondsDoNotMatch(stats: string, hh: string, mm: string, ss: string)
    requires 't' !in stats
    requires hh != [] && mm != [] && AllDigits(hh) && AllDigits(mm) && AllDigits(ss)
    ensures ParseTime(stats + ("time=" + (hh + (":" + (mm + (":" + ss)))))) == None
  {
    var r1 := mm + (":" + ss);
    var r0 := hh + (":" + r1);
    var m := "time=" + r0;
    SearchPastPrefix(stats, m);
    assert m[..5] == "time=" && m[5..] == r0;
    FieldOf(hh, ':', r1);
    FieldOf(mm, ':', ss);
    DigitSpanOf(ss, []);
    assert ss + [] == ss;
    assert MatchHere(m) == None;
    DigitsHaveNoT(hh);
    DigitsHaveNoT(mm);
    DigitsHaveNoT(ss);
    LoneMarkerMisses(r0);
  }

  /** `int((current_time / total_duration) * 100)`; a zero duration raises `ZeroDivisionError`. */
  function Percent(current: real, total: real): (r: Result<int, string>)
    ensures total == 0.0 <==> r.Err?
    ensures r.Ok? ==> r.value == TruncToInt(current / total * 100.0)
  {
    if total == 0.0 then Err("ZeroDivisionError") else Ok(TruncToInt(current / total * 100.0))
  }

  /** Within the duration the percentage is between 0 and 100, and 100 only at the very end. */
  lemma PercentBounds(current: real, total: real)
    requires 0.0 <= current <= total && total > 0.0
    ensures 0 <= Percent(current, total).value <= 100
    ensures Percent(current, total).value == 100 <==> current == total
  {
    var q := current / total;
    assert q * total == current;
    assert 0.0 <= q <= 1.0;
    assert q * 100.0 <= 100.0;
    if Percent(current, total).value == 100 {
      assert q * 100.0 >= 100.0;
      assert q == 1.0;
    }
  }

  /** Later times never give a smaller percentage. */
  lemma PercentMonotone(c1: real, c2: real, total: real)
    requires c1 <= c2 && total > 0.0
    ensures Percent(c1, total).value <= Percent(c2, total).value
  {
    var q1, q2 := c1 / total, c2 / total;
    assert q1 * total == c1 && q2 * total == c2;
    assert q1 <= q2;
    var a, b := q1 * 100.0, q2 * 100.0;
    assert a <= b;
  }

  /** Nothing clamps the percentage: a time beyond the probed duration reports more than 100. */
  lemma PercentNotClamped()
    ensures Percent(30.0, 20.0) == Ok(150)
  {
  }

  /** What one stderr line contributes: nothing, a percentage, or the error that stops the scan. */
  datatype LineOutcome = Silent | Progress(percent: int) | Raises(error: string)

  function ScanLine(line: string, total: real): (o: LineOutcome)
    ensures ParseTime(line).None? ==> o == Silent
    ensures ParseTime(line).Some? ==>
      match Percent(ParseTime(line).value, total)
      case Ok(p) => o == Progress(p)
      case Err(e) => o == Raises(e)
  {
    MatchNeedsMarker(line);
    if !HasMarker(line) then Silent
    else match ParseTime(line)
      case None => Silent
      case Some(t) =>
        match Percent(t, total)
        case Ok(p) => Progress(p)
        case Err(e) => Raises(e)
  }

  /**
   * The body of both extractors' stderr loop: the `"time="` guard, the regex search, then the
   * percentage, which raises on a zero duration.
   */
  method ReadLine(line: string, total: real) returns (o: LineOutcome)
    ensures o == ScanLine(line, total)
  {
    o := Silent;
    if HasMarker(line) {
      var m := Search(line);
      if m.Some? {
        var progress := Percent(Seconds(m.value), total);
        if progress.Err? {
          o := Raises(progress.error);
        } else {
          o := Progress(progress.value);
        }
      }
    }
  }

  /** The percentages computed over the lines read so far, and the error that stopped the reading. */
  datatype Scan = Scan(reports: seq<int>, raised: Option<string>)

  function ScanLines(lines: seq<string>, total: real): Scan
  {
    if lines == [] then Scan([], None)
    else
      var s := ScanLines(lines[..|lines| - 1], total);
      if s.raised.Some? then s
      else match ScanLine(lines[|lines| - 1], total)
        case Silent => s
        case Progress(p) => Scan(s.reports + [p], None)
        case Raises(e) => Scan(s.reports, Some(e))
  }

  /** Every time ffmpeg reports lies within the probed duration. */
  predicate WithinDuration(lines: seq<string>, total: real)
  {
    forall i :: 0 <= i < |lines| && ParseTime(lines[i]).Some? ==> 0.0 <= ParseTime(lines[i]).value <= total
  }

  /** With every time within the duration, every percentage is between 0 and 100 and nothing raises. */
  lemma {:induction false} ScanWithinDuration(lines: seq<string>, total: real)
    requires total > 0.0
    requires WithinDuration(lines, total)
    ensures ScanLines(lines, total).raised.None?
    ensures forall k :: 0 <= k < |ScanLines(lines, total).reports| ==> 0 <= ScanLines(lines, total).reports[k] <= 100
  {
    if lines != [] {
      var front := lines[..|lines| - 1];
      var last := lines[|lines| - 1];
      assert forall i :: 0 <= i < |front| ==> front[i] == lines[i];
      ScanWithinDuration(front, total);
      var sf, r := ScanLines(front, total), ScanLines(lines, total);
      if ParseTime(last).Some? {
        PercentBounds(ParseTime(last).value, total);
        var p := Percent(ParseTime(last).value, total).value;
        assert r.reports == sf.reports + [p];
      } else {
        assert r == sf;
      }
    }
  }

  /** A zero duration aborts the scan at the first line that carries a time. */
  lemma {:induction false} ZeroDurationRaises(lines: seq<string>)
    ensures ScanLines(lines, 0.0).reports == []
    ensures ScanLines(lines, 0.0).raised.Some? <==> exists i :: 0 <= i < |lines| && ParseTime(lines[i]).Some?
  {
    if lines != [] {
      var front := lines[..|lines| - 1];
      ZeroDurationRaises(front);
      assert forall i :: 0 <= i < |front| ==> front[i] == lines[i];
      if exists i :: 0 <= i < |front| && ParseTime(front[i]).Some? {
        var i :| 0 <= i < |front| && ParseTime(front[i]).Some?;
        assert ParseTime(lines[i]).Some?;
      }
    }
  }

  /** Once a line has raised, the lines after it are never read. */
  lemma {:induction false} RaisedIsFinal(lines: seq<string>, k: nat, total: real)
    requires k <= |lines| && ScanLines(lines[..k], total).raised.Some?
    ensures ScanLines(lines, total) == ScanLines(lines[..k], total)
    decreases |lines| - k
  {
    if k < |lines| {
      assert lines[..k + 1][..k] == lines[..k];
      RaisedIsFinal(lines, k + 1, total);
    } else {
      assert lines[..k] == lines;
    }
  }

  /** Lines that carry no time produce no percentage and never raise. */
  lemma {:induction false} TimelessLinesReportNothing(lines: seq<string>, total: real)
    requires forall i :: 0 <= i < |lines| ==> ParseTime(lines[i]).None?
    ensures ScanLines(lines, total) == Scan([], None)
  {
    if lines != [] {
      var front := lines[..|lines| - 1];
      assert forall i :: 0 <= i < |front| ==> front[i] == lines[i];
      TimelessLinesReportNothing(front, total);
    }
  }

  /** Reading one more line, before anything has raised. */
  lemma ScanStep(lines: seq<string>, k: nat, total: real)
    requires k < |lines| && ScanLines(lines[..k], total).raised.None?
    ensures var before := ScanLines(lines[..k], total);
      ScanLines(lines[..k + 1], total) ==
        match ScanLine(lines[k], total)
        case Silent => before
        case Progress(p) => Scan(before.reports + [p], None)
        case Raises(e) => Scan(before.reports, Some(e))
  {
    assert lines[..k + 1][..k] == lines[..k];
  }
}
