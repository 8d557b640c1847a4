/**
 * The realtime transcription app (`ASRApp`): configuration, warm-up, and the loop that reads one
 * audio block, hands it to the online processor, asks for one processing step and prints what
 * that step commits. The live device and the ASR engine are replaced by a finite script: each
 * `Step` says what one read returned and what the processing step then answered.
 */
module Realtime {
  import opened Common

  /** `SAMPLING_RATE`: Whisper needs 16 kHz audio. */
  const SamplingRate: nat := 16000

  /** The fields of the `Args` object built by `create_args`. */
  datatype Args = Args(
    minChunkSize: real,
    model: string,
    modelCacheDir: Option<string>,
    modelDir: Option<string>,
    lan: string,
    task: string,
    backend: string,
    vac: bool,
    vad: bool,
    bufferTrimming: string,
    bufferTrimmingSec: nat,
    logLevel: string)

  /** `int(SAMPLING_RATE * CHUNK_DURATION)`: the block size in samples. */
  function ChunkSize(rate: nat, duration: real): (n: int)
    ensures duration >= 0.0 ==> 0 <= n && n as real <= rate as real * duration < n as real + 1.0
  {
    assert duration >= 0.0 ==> rate as real * duration >= 0.0;
    TruncToInt(rate as real * duration)
  }

  /** `n` zero samples (`np.zeros(n)`). */
  function Zeros(n: nat): (z: seq<real>)
    ensures |z| == n && forall i :: 0 <= i < n ==> z[i] == 0.0
  {
    seq(n, i => 0.0)
  }

  /** What `process_iter` returns: `(beg, end, text)`, with `beg == None` when nothing is committed. */
  datatype IterResult = IterResult(beg: Option<real>, end: Option<real>, text: string)

  /** `recognized_text.endswith(('.', '?', '!'))`. */
  predicate EndsSentence(text: string)
  {
    EndsWith(text, ".") || EndsWith(text, "?") || EndsWith(text, "!")
  }

  /** The printed fragment: a newline is added after a complete sentence. */
  function Terminate(text: string): string
  {
    if EndsSentence(text) then text + "\n" else text
  }

  /** What one processing result makes the loop print, if anything. */
  function Emission(r: IterResult): Option<string>
  {
    if r.beg.None? then None else Some(Terminate(r.text))
  }

  /** One scripted turn of the loop: a block read and its result, or a failure. */
  datatype Step =
    | Block(samples: seq<real>, result: IterResult)   // the read succeeds; `process_iter` answers `result`
    | ReadFails                                     // `stream.read` raises
    | InsertFails(samples: seq<real>)               // the block is read; `insert_audio_chunk` raises
    | IterFails(samples: seq<real>)                 // the block is inserted; `process_iter` raises

  /** How far `start_asr` gets before the loop: every call before `process_audio` may raise. */
  datatype Setup =
    | Ready          // everything succeeds and the loop runs
    | FactoryFails   // `asr_factory` raises
    | WarmupFails    // `asr.transcribe` on the silence raises
    | OpenFails      // `sd.InputStream` raises
    | StartFails     // `stream.start` raises

  /** Calls made on the input stream and the online processor, in order. */
  datatype Event = Read(blocksize: nat) | Insert(samples: seq<real>) | Process

  /** `self.stream`: absent, or an input stream with its block size. */
  datatype StreamState = NoStream | Stream(blocksize: nat, active: bool, closed: bool)

  /** The effect of a prefix of the script: calls made, text printed, and whether it raised. */
  datatype Trace = Trace(events: seq<Event>, printed: seq<string>, failed: bool)

  /** The calls one scripted step makes: a call that raises is the last one. */
  function TurnEvents(step: Step, blocksize: nat): seq<Event>
  {
    match step
    case ReadFails => [Read(blocksize)]
    case InsertFails(samples) => [Read(blocksize), Insert(samples)]
    case _ => [Read(blocksize), Insert(step.samples), Process]
  }

  /** What one scripted step prints: the committed text of a step that did not raise. */
  function TurnPrinted(step: Step): seq<string>
  {
    match step
    case Block(_, result) => (match Emission(result) case Some(line) => [line] case None => [])
    case _ => []
  }

  predicate Fails(step: Step)
  {
    !step.Block?
  }

  /** The trace after one more scripted step. */
  function Extend(t: Trace, step: Step, blocksize: nat): Trace
  {
    Trace(t.events + TurnEvents(step, blocksize), t.printed + TurnPrinted(step), Fails(step))
  }

  /** The loop run over `script`: steps after the first failure are never reached. */
  function RunTrace(script: seq<Step>, blocksize: nat): Trace
  {
    if script == [] then Trace([], [], false)
    else
      var t := RunTrace(script[..|script| - 1], blocksize);
      if t.failed then t else Extend(t, script[|script| - 1], blocksize)
  }

  /** Once a prefix has raised, the rest of the script changes nothing. */
  lemma {:induction false} FailureEndsRun(script: seq<Step>, k: nat, blocksize: nat)
    requires k <= |script|
    requires RunTrace(script[..k], blocksize).failed
    ensures RunTrace(script, blocksize) == RunTrace(script[..k], blocksize)
  {
    if k < |script| {
      assert script[..|script| - 1][..k] == script[..k];
      FailureEndsRun(script[..|script| - 1], k, blocksize);
    } else {
      assert script[..k] == script;
    }
  }

  /** One more scripted step, before anything has raised. */
  lemma RunStep(script: seq<Step>, k: nat, blocksize: nat)
    requires k < |script| && !RunTrace(script[..k], blocksize).failed
    ensures RunTrace(script[..k + 1], blocksize) == Extend(RunTrace(script[..k], blocksize), script[k], blocksize)
  {
    assert script[..k + 1][..k] == script[..k];
  }

  class AsrApp {
    const modelVar: string
    const inputVar: string
    const languageVar: string
    const taskVar: string
    const logLevelVar: string

    /** The configuration of the last `start_asr`. */
    var args: Option<Args>
    /** The inputs given to `asr.transcribe` (the warm-up). */
    var warmups: seq<seq<real>>
    /** Calls made on the stream and on the online processor since it was created. */
    var events: seq<Event>
    var stream: StreamState
    /** What was printed, one entry per `print` call. */
    var printed: seq<string>

    constructor ()
      ensures modelVar == "tiny" && inputVar == "Microphone" && languageVar == "zh"
      ensures taskVar == "transcribe" && logLevelVar == "DEBUG"
      ensures args == None && warmups == [] && events == [] && stream == NoStream && printed == []
    {
      modelVar, inputVar, languageVar := "tiny", "Microphone", "zh";
      taskVar, logLevelVar := "transcribe", "DEBUG";
      args, warmups, events, stream, printed := None, [], [], NoStream, [];
    }

    /** `create_args`: a fixed configuration plus the app's model, language, task and log level. */
    function CreateArgs(): (a: Args)
      ensures a.minChunkSize == 0.8
      ensures a.model == modelVar && a.lan == languageVar && a.task == taskVar && a.logLevel == logLevelVar
      ensures a.modelCacheDir == None && a.modelDir == None
      ensures a.backend == "faster-whisper" && !a.vac && a.vad
      ensures a.bufferTrimming == "segment" && a.bufferTrimmingSec == 15
    {
      Args(0.8, modelVar, None, None, languageVar, taskVar, "faster-whisper", false, true, "segment", 15, logLevelVar)
    }

    /** `stop_asr`: stop and close the stream only when there is one. */
    method StopAsr()
      modifies this
      ensures stream == if old(stream).Stream? then old(stream).(active := false, closed := true) else old(stream)
      ensures printed == old(printed) + if old(stream).Stream? then ["ASR stopped."] else []
      ensures args == old(args) && warmups == old(warmups) && events == old(events)
    {
      if stream.Stream? {
        stream := stream.(active := false);
        stream := stream.(closed := true);
        printed := printed + ["ASR stopped."];
      }
    }

    /**
     * `process_audio` over a finite script. Without a stream the first read raises at once.
     * Any failure ends the loop and calls `stop_asr`.
     */
    method ProcessAudio(script: seq<Step>)
      modifies this
      ensures args == old(args) && warmups == old(warmups)
      ensures old(stream).NoStream? ==> stream == NoStream && events == old(events) && printed == old(printed)
      ensures old(stream).Stream? ==>
        var t := RunTrace(script, old(stream).blocksize);
        && events == old(events) + t.events
        && printed == old(printed) + t.printed + (if t.failed then ["ASR stopped."] else [])
        && stream == if t.failed then old(stream).(active := false, closed := true) else old(stream)
    {
      if stream.NoStream? {
        StopAsr();
        return;
      }
      var blocksize := stream.blocksize;
      var failed := Loop(script, blocksize);
      if failed {
        StopAsr();
      }
    }

    /** The `while True` loop of `process_audio` over the script, up to the first failure. */
    method Loop(script: seq<Step>, blocksize: nat) returns (failed: bool)
      modifies this
      ensures failed == RunTrace(script, blocksize).failed
      ensures events == old(events) + RunTrace(script, blocksize).events
      ensures printed == old(printed) + RunTrace(script, blocksize).printed
      ensures stream == old(stream) && args == old(args) && warmups == old(warmups)
    {
      ghost var t := Trace([], [], false);
      failed := false;
      var k := 0;
      while k < |script| && !failed
        invariant 0 <= k <= |script|
        invariant t == RunTrace(script[..k], blocksize) && failed == t.failed
        invariant events == old(events) + t.events
        invariant printed == old(printed) + t.printed
        invariant stream == old(stream) && args == old(args) && warmups == old(warmups)
      {
        RunStep(script, k, blocksize);
        var step := script[k];
        failed := Turn(step, blocksize);
        Concat3(old(events), t.events, TurnEvents(step, blocksize));
        Concat3(old(printed), t.printed, TurnPrinted(step));
        t := Extend(t, step, blocksize);
        k := k + 1;
      }
      if failed {
        FailureEndsRun(script, k, blocksize);
      } else {
        assert script[..k] == script;
      }
    }

    /**
     * One pass of the loop body: read a block, insert it, ask for one processing step, and print
     * what it commits. `failed` says that the read or the step raised.
     */
    method Turn(step: Step, blocksize: nat) returns (failed: bool)
      modifies this
      ensures failed == Fails(step)
      ensures events == old(events) + TurnEvents(step, blocksize)
      ensures printed == old(printed) + TurnPrinted(step)
      ensures stream == old(stream) && args == old(args) && warmups == old(warmups)
    {
      events := events + [Read(blocksize)];
      if step.ReadFails? {
        return true;
      }
      events := events + [Insert(step.samples)];
      if step.InsertFails? {
        return true;
      }
      events := events + [Process];
      if step.IterFails? {
        return true;
      }
      var result := step.result;
      if result.beg.Some? {
        var recognized := result.text;
        if EndsSentence(recognized) {
          recognized := recognized + "\n";
        }
        printed := printed + [recognized];
      }
      return false;
    }

    /**
     * `start_asr`: build the configuration, create a fresh online processor, warm the model up
     * with one second of silence, open a stream of `int(16000 * 0.8)` samples per block, start it,
     * then run the loop. `setup` says which of the calls before the loop raises, if any; such an
     * exception is not caught and leaves `raised` set, with the state as far as the calls got.
     */
    method StartAsr(setup: Setup, script: seq<Step>) returns (raised: bool)
      modifies this
      ensures raised <==> !setup.Ready?
      ensures args == Some(CreateArgs())
      ensures warmups == old(warmups) + if setup == FactoryFails then [] else [Zeros(SamplingRate)]
      ensures setup == FactoryFails ==> events == old(events)
      ensures setup !in {Ready, FactoryFails} ==> events == []
      ensures !setup.Ready? ==> printed == old(printed)
      ensures setup in {FactoryFails, WarmupFails, OpenFails} ==> stream == old(stream)
      ensures setup == StartFails ==> stream == Stream(12800, false, false)
      ensures setup == Ready ==>
        var t := RunTrace(script, 12800);
        && events == t.events
        && printed == old(printed) + t.printed + (if t.failed then ["ASR stopped."] else [])
        && stream == Stream(12800, !t.failed, t.failed)
    {
      var a := CreateArgs();
      args := Some(a);
      if setup == FactoryFails {
        return true;
      }
      events := [];
      var chunkSize := ChunkSize(SamplingRate, a.minChunkSize);
      assert chunkSize == 12800;
      warmups := warmups + [Zeros(SamplingRate)];
      if setup == WarmupFails || setup == OpenFails {
        return true;
      }
      stream := Stream(chunkSize, false, false);
      if setup == StartFails {
        return true;
      }
      stream := stream.(active := true);
      raised := false;
      ProcessAudio(script);
    }
  }
}
