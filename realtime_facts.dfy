/** What the realtime loop promises about the order of its calls and what it prints. */
module RealtimeFacts {
  import opened Common
  import opened Realtime

  /** The printed fragment is the recognized text, followed by a newline exactly after a sentence end. */
  lemma TerminateKeepsText(text: string)
    ensures Terminate(text)[..|text|] == text
    ensures |Terminate(text)| == |text| + (if EndsSentence(text) then 1 else 0)
    ensures EndsWith(Terminate(text), "\n") <==> EndsSentence(text) || EndsWith(text, "\n")
  {
    if EndsSentence(text) {
      assert Terminate(text)[|Terminate(text)| - 1..] == "\n";
    }
  }

  lemma SentenceExamples()
    ensures Terminate("hello world.") == "hello world.\n"
    ensures Terminate("hello wor") == "hello wor"
    ensures Terminate("really?") == "really?\n" && Terminate("stop!") == "stop!\n"
  {
    assert EndsWith("hello world.", ".");
    assert !EndsWith("hello wor", ".") && !EndsWith("hello wor", "?") && !EndsWith("hello wor", "!");
    assert EndsWith("really?", "?");
    assert EndsWith("stop!", "!");
  }

  /** A result whose first element is None prints nothing. */
  lemma NoneResultPrintsNothing(script: seq<Step>, samples: seq<real>, r: IterResult, blocksize: nat)
    requires r.beg.None?
    ensures RunTrace(script + [Block(samples, r)], blocksize).printed == RunTrace(script, blocksize).printed
  {
    assert (script + [Block(samples, r)])[..|script|] == script;
  }

  /** A committed result, reached before any failure, prints its text with the sentence rule. */
  lemma CommittedResultPrintsText(script: seq<Step>, samples: seq<real>, r: IterResult, blocksize: nat)
    requires r.beg.Some? && !RunTrace(script, blocksize).failed
    ensures RunTrace(script + [Block(samples, r)], blocksize).printed
         == RunTrace(script, blocksize).printed + [Terminate(r.text)]
  {
    assert (script + [Block(samples, r)])[..|script|] == script;
  }

  /**
   * The call protocol of the loop: every read asks for one block of the stream's size; every
   * block inserted was read just before and is followed by exactly one processing step, unless
   * the insertion raised and ended the loop; nothing is processed that was not inserted just before.
   */
  ghost predicate InReadOrder(ev: seq<Event>, blocksize: nat)
  {
    && (forall k :: 0 <= k < |ev| && ev[k].Read? ==> ev[k].blocksize == blocksize)
    && (forall k :: 0 <= k < |ev| - 1 && ev[k].Read? ==> ev[k + 1].Insert?)
    && (forall k :: 0 <= k < |ev| && ev[k].Insert? ==> 0 < k && ev[k - 1].Read? && (k == |ev| - 1 || ev[k + 1] == Process))
    && (forall k :: 0 <= k < |ev| && ev[k] == Process ==> 0 < k && ev[k - 1].Insert?)
  }

  /** A completed turn (read, insert, process) after a completed prefix keeps the protocol. */
  lemma AppendTurn(ev: seq<Event>, blocksize: nat, samples: seq<real>)
    requires InReadOrder(ev, blocksize) && (ev == [] || ev[|ev| - 1] == Process)
    ensures InReadOrder(ev + [Read(blocksize), Insert(samples), Process], blocksize)
  {
    var ev' := ev + [Read(blocksize), Insert(samples), Process];
    var n := |ev|;
    assert forall k :: 0 <= k < n ==> ev'[k] == ev[k];
    assert ev'[n] == Read(blocksize) && ev'[n + 1] == Insert(samples) && ev'[n + 2] == Process;
  }

  /** A read that raises after a completed prefix keeps the protocol. */
  lemma AppendFailedRead(ev: seq<Event>, blocksize: nat)
    requires InReadOrder(ev, blocksize) && (ev == [] || ev[|ev| - 1] == Process)
    ensures InReadOrder(ev + [Read(blocksize)], blocksize)
  {
    var ev' := ev + [Read(blocksize)];
    assert forall k :: 0 <= k < |ev| ==> ev'[k] == ev[k];
  }

  /** A read whose block then fails to be inserted, after a completed prefix, keeps the protocol. */
  lemma AppendFailedInsert(ev: seq<Event>, blocksize: nat, samples: seq<real>)
    requires InReadOrder(ev, blocksize) && (ev == [] || ev[|ev| - 1] == Process)
    ensures InReadOrder(ev + [Read(blocksize), Insert(samples)], blocksize)
  {
    var ev' := ev + [Read(blocksize), Insert(samples)];
    var n := |ev|;
    assert forall k :: 0 <= k < n ==> ev'[k] == ev[k];
    assert ev'[n] == Read(blocksize) && ev'[n + 1] == Insert(samples);
  }

  lemma {:induction false} RunFollowsProtocol(script: seq<Step>, blocksize: nat)
    ensures InReadOrder(RunTrace(script, blocksize).events, blocksize)
    ensures !RunTrace(script, blocksize).failed ==>
      var ev := RunTrace(script, blocksize).events;
      ev == [] || ev[|ev| - 1] == Process
  {
    if script != [] {
      var front := script[..|script| - 1];
      RunFollowsProtocol(front, blocksize);
      var t := RunTrace(front, blocksize);
      if !t.failed {
        match script[|script| - 1]
        case Block(samples, result) =>
          AppendTurn(t.events, blocksize, samples);
        case ReadFails =>
          AppendFailedRead(t.events, blocksize);
        case InsertFails(samples) =>
          AppendFailedInsert(t.events, blocksize, samples);
        case IterFails(samples) =>
          AppendTurn(t.events, blocksize, samples);
      }
    }
  }

  /** The blocks handed to `insert_audio_chunk`, in call order. */
  function Inserted(ev: seq<Event>): (blocks: seq<seq<real>>)
    ensures |blocks| <= |ev|
  {
    if ev == [] then []
    else Inserted(ev[..|ev| - 1]) + match ev[|ev| - 1] case Insert(s) => [s] case _ => []
  }

  lemma {:induction false} InsertedAppend(ev: seq<Event>, more: seq<Event>)
    ensures Inserted(ev + more) == Inserted(ev) + Inserted(more)
    decreases |more|
  {
    if more == [] {
      assert ev + more == ev;
    } else {
      assert (ev + more)[..|ev + more| - 1] == ev + more[..|more| - 1];
      InsertedAppend(ev, more[..|more| - 1]);
    }
  }

  /** When no step fails, every scripted block is inserted, in script order, and nothing else. */
  lemma {:induction false} BlocksInsertedInScriptOrder(script: seq<Step>, blocksize: nat)
    requires forall k :: 0 <= k < |script| ==> script[k].Block?
    ensures !RunTrace(script, blocksize).failed
    ensures |RunTrace(script, blocksize).events| == 3 * |script|
    ensures Inserted(RunTrace(script, blocksize).events) == seq(|script|, k requires 0 <= k < |script| => script[k].samples)
  {
    if script != [] {
      var front := script[..|script| - 1];
      BlocksInsertedInScriptOrder(front, blocksize);
      var last := script[|script| - 1];
      var triple := [Read(blocksize), Insert(last.samples), Process];
      var t := RunTrace(front, blocksize);
      assert RunTrace(script, blocksize) == Extend(t, last, blocksize);
      BlockTurnInserts(last, blocksize);
      InsertedAppend(t.events, triple);
      BlockSamplesSnoc(script);
    }
  }

  /** The scripted blocks of a script are those of all but its last step, then the last one's. */
  lemma BlockSamplesSnoc(script: seq<Step>)
    requires script != [] && forall k :: 0 <= k < |script| ==> script[k].Block?
    ensures var front := script[..|script| - 1];
      seq(|script|, k requires 0 <= k < |script| => script[k].samples)
      == seq(|front|, k requires 0 <= k < |front| => front[k].samples) + [script[|script| - 1].samples]
  {
  }

  /** A completed turn makes its three calls and inserts exactly its block. */
  lemma BlockTurnInserts(step: Step, blocksize: nat)
    requires step.Block?
    ensures TurnEvents(step, blocksize) == [Read(blocksize), Insert(step.samples), Process]
    ensures Inserted([Read(blocksize), Insert(step.samples), Process]) == [step.samples]
  {
    var triple := [Read(blocksize), Insert(step.samples), Process];
    assert triple[..2][..1] == [Read(blocksize)];
    assert Inserted([Read(blocksize)]) == [] by {
      assert [Read(blocksize)][..0] == [];
    }
  }

  /** `int(16000 * 0.8)` is 12800 samples per block. */
  lemma DefaultChunkSize(app: AsrApp)
    ensures ChunkSize(SamplingRate, app.CreateArgs().minChunkSize) == 12800
  {
  }
}
