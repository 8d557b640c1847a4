/** The desktop app's audio extraction thread: progress as a signal, and no final 100. */
module QtExtractor {
  import opened Common
  import opened FfmpegProgress

  class AudioExtractorThread {
    const videoFile: string
    const audioFile: string
    /** The values emitted on `progress_updated`, in order. */
    var emitted: seq<int>
    /** The ffmpeg commands handed to `subprocess.Popen`. */
    var launched: seq<seq<string>>

    constructor (videoFile: string, audioFile: string)
      ensures this.videoFile == videoFile && this.audioFile == audioFile
      ensures emitted == [] && launched == []
    {
      this.videoFile := videoFile;
      this.audioFile := audioFile;
      emitted := [];
      launched := [];
    }

    /**
     * `run()`: with the probed duration (or the error probing raised) and the ffmpeg process (its
     * stderr lines, or the error `subprocess.Popen` raised) as parameters; `raised` is the
     * exception that ends the thread, if any.
     */
    method Run(duration: Result<real, string>, ffmpeg: Result<seq<string>, string>) returns (raised: Option<string>)
      modifies this
      ensures duration.Err? ==> raised == Some(duration.error) && emitted == old(emitted) && launched == old(launched)
      ensures duration.Ok? ==> launched == old(launched) + [Command(videoFile, audioFile)]
      ensures duration.Ok? && ffmpeg.Err? ==> raised == Some(ffmpeg.error) && emitted == old(emitted)
      ensures duration.Ok? && ffmpeg.Ok? ==>
        && raised == ScanLines(ffmpeg.value, duration.value).raised
        && emitted == old(emitted) + ScanLines(ffmpeg.value, duration.value).reports
    {
      if duration.Err? {
        return Some(duration.error);
      }
      var total := duration.value;
      launched := launched + [Command(videoFile, audioFile)];
      if ffmpeg.Err? {
        return Some(ffmpeg.error);
      }
      raised := ReadStderr(ffmpeg.value, total);
    }

    /**
     * The loop over ffmpeg's stderr: each line with a time emits its percentage, and the first
     * percentage that raises ends the loop with that error.
     */
    method ReadStderr(stderr: seq<string>, total: real) returns (raised: Option<string>)
      modifies this
      ensures raised == ScanLines(stderr, total).raised
      ensures emitted == old(emitted) + ScanLines(stderr, total).reports
      ensures launched == old(launched)
    {
      var k := 0;
      while k < |stderr|
        invariant 0 <= k <= |stderr|
        invariant launched == old(launched)
        invariant ScanLines(stderr[..k], total).raised.None?
        invariant emitted == old(emitted) + ScanLines(stderr[..k], total).reports
      {
        ScanStep(stderr, k, total);
        var o := ReadLine(stderr[k], total);
        match o {
          case Silent =>
          case Raises(e) =>
            RaisedIsFinal(stderr, k + 1, total);
            return Some(e);
          case Progress(p) =>
            Concat3(old(emitted), ScanLines(stderr[..k], total).reports, [p]);
            emitted := emitted + [p];
        }
        k := k + 1;
      }
      assert stderr[..k] == stderr;
      raised := None;
    }
  }
}
