/** The web apps' audio extraction: progress through an optional callback, and a final 100. */
module OnlineExtractor {
  import opened Common
  import opened FfmpegProgress

  /**
   * `extract_audio_from_video(video_file, audio_file, progress_callback)`. The probed duration
   * (or the error probing raised), the ffmpeg process (its stderr lines, or the error
   * `subprocess.Popen` raised) and whether a callback was given are parameters; `launched` is the
   * command handed to `Popen`, `reports` the callback's arguments in order.
   */
  method ExtractAudioFromVideo(videoFile: string, audioFile: string, duration: Result<real, string>,
                               ffmpeg: Result<seq<string>, string>, hasCallback: bool)
    returns (result: Result<string, string>, launched: Option<seq<string>>, reports: seq<int>)
    ensures duration.Err? ==> result == Err(duration.error) && launched.None? && reports == []
    ensures duration.Ok? ==> launched == Some(Command(videoFile, audioFile))
    ensures duration.Ok? && ffmpeg.Err? ==> result == Err(ffmpeg.error) && reports == []
    ensures duration.Ok? && ffmpeg.Ok? ==>
      var scan := ScanLines(ffmpeg.value, duration.value);
      && (scan.raised.None? ==> result == Ok(audioFile))
      && (scan.raised.Some? ==> result == Err(scan.raised.value))
      && reports == if !hasCallback then [] else scan.reports + (if scan.raised.None? then [100] else [])
    ensures duration.Ok? && duration.value > 0.0 && ffmpeg.Ok? && WithinDuration(ffmpeg.value, duration.value) ==>
      && result == Ok(audioFile)
      && (forall k :: 0 <= k < |reports| ==> 0 <= reports[k] <= 100)
      && (hasCallback ==> reports != [] && reports[|reports| - 1] == 100)
  {
    reports := [];
    if duration.Err? {
      return Err(duration.error), None, [];
    }
    var total := duration.value;
    launched := Some(Command(videoFile, audioFile));
    if ffmpeg.Err? {
      return Err(ffmpeg.error), launched, [];
    }
    var stderr := ffmpeg.value;
    var raised;
    raised, reports := ReadProgress(stderr, total, hasCallback);
    if total > 0.0 && WithinDuration(stderr, total) {
      ScanWithinDuration(stderr, total);
    }
    if raised.Some? {
      return Err(raised.value), launched, reports;
    }
    if hasCallback {
      reports := reports + [100];
    }
    result := Ok(audioFile);
  }

  /**
   * The loop over ffmpeg's stderr: each line with a time becomes a percentage for the callback,
   * and the first percentage that raises ends the loop with that error.
   */
  method ReadProgress(stderr: seq<string>, total: real, hasCallback: bool)
    returns (raised: Option<string>, reports: seq<int>)
    ensures raised == ScanLines(stderr, total).raised
    ensures reports == if hasCallback then ScanLines(stderr, total).reports else []
  {
    reports := [];
    var k := 0;
    while k < |stderr|
      invariant 0 <= k <= |stderr|
      invariant ScanLines(stderr[..k], total).raised.None?
      invariant reports == if hasCallback then ScanLines(stderr[..k], total).reports else []
    {
      ScanStep(stderr, k, total);
      var o := ReadLine(stderr[k], total);
      match o {
        case Silent =>
        case Raises(e) =>
          RaisedIsFinal(stderr, k + 1, total);
          return Some(e), reports;
        case Progress(p) =>
          if hasCallback {
            reports := reports + [p];
          }
      }
      k := k + 1;
    }
    assert stderr[..k] == stderr;
    raised := None;
  }
}
