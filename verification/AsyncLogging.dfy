/** `muduo::AsyncLogging`: the producers' `append` and the regions of the backend's `threadFunc`. */
module AsyncLoggings {
  import opened Options
  import opened AsyncState

  function AppendSteps(lines: seq<Line>): seq<Step> {
    if lines == [] then [] else AppendSteps(lines[..|lines| - 1]) + [Append(lines[|lines| - 1])]
  }

  /** `n` buffers written; before the `i`-th one producers append `during[i]`. */
  function WriteSteps(n: nat, during: seq<seq<Line>>): seq<Step> {
    if n == 0 then []
    else WriteSteps(n - 1, during) + (AppendSteps(if n - 1 < |during| then during[n - 1] else []) + [WriteOne])
  }

  /** The lines that fit a buffer at all. */
  function Accepted(lines: seq<Line>): seq<Line> {
    if lines == [] then []
    else
      var last := lines[|lines| - 1];
      Accepted(lines[..|lines| - 1]) + if |last| < 4_000_000 then [last] else []
  }

  class AsyncLogging {
    var currentBuffer: LogBuffer
    var nextBuffer: Option<LogBuffer>
    var buffers: seq<LogBuffer>
    var running: bool
    /** The local variables of `threadFunc`. */
    var pc: Pc
    var newBuffer1: Option<LogBuffer>
    var newBuffer2: Option<LogBuffer>
    var buffersToWrite: seq<LogBuffer>
    var output: seq<Item>
    var appended: seq<Line>
    var batches: seq<seq<LogBuffer>>

    ghost function Model(): State
      reads this
    {
      State(currentBuffer, nextBuffer, buffers, running, pc, newBuffer1, newBuffer2, buffersToWrite,
            output, appended, batches)
    }

    ghost predicate Valid()
      reads this
    {
      Inv(Model())
    }

    constructor ()
      ensures Valid() && Model() == Init()
      ensures currentBuffer == [] && nextBuffer == Some([]) && buffers == [] && !running && pc == NotStarted
    {
      currentBuffer, nextBuffer, buffers, running, pc := [], Some([]), [], false, NotStarted;
      newBuffer1, newBuffer2, buffersToWrite, output, appended, batches := None, None, [], [], [], [];
    }

    method Start()
      requires Valid() && pc.NotStarted?
      modifies this`running, this`pc, this`newBuffer1, this`newBuffer2
      ensures Valid() && Model() == Apply(old(Model()), AsyncState.Start)
      ensures running && pc == AtTop && newBuffer1 == Some([]) && newBuffer2 == Some([])
    {
      hide Inv;
      StepInv(Model(), AsyncState.Start);
      running, pc, newBuffer1, newBuffer2 := true, AtTop, Some([]), Some([]);
    }

    method Stop()
      requires Valid()
      modifies this`running
      ensures Valid() && Model() == Apply(old(Model()), AsyncState.Stop) && !running
    {
      hide Inv;
      StepInv(Model(), AsyncState.Stop);
      running := false;
    }

    /** The loop condition of `threadFunc`. */
    method TestRunning()
      requires Valid() && pc.AtTop?
      modifies this`pc
      ensures Valid() && Model() == Apply(old(Model()), Check)
      ensures pc == if running then Waiting else Exited
    {
      hide Inv;
      StepInv(Model(), Check);
      pc := if running then Waiting else Exited;
    }

    method Append(logline: Line)
      requires Valid()
      modifies this`currentBuffer, this`nextBuffer, this`buffers, this`appended
      ensures Valid() && Model() == Apply(old(Model()), AsyncState.Append(logline))
      ensures appended == if |logline| < 4_000_000 then old(appended) + [logline] else old(appended)
      ensures if Length(old(currentBuffer)) + |logline| < 4_000_000 then
                && currentBuffer == old(currentBuffer) + [logline]
                && nextBuffer == old(nextBuffer) && buffers == old(buffers)
              else
                && currentBuffer == (if |logline| < 4_000_000 then [logline] else [])
                && nextBuffer == None && buffers == old(buffers) + [old(currentBuffer)]
    {
      hide Inv, Length;
      AppendInv(Model(), logline);
      AppendStarts(Model(), logline);
      if HasRoom(currentBuffer, logline) {
        currentBuffer := currentBuffer + [logline];
        appended := appended + [logline];
      } else {
        buffers := buffers + [currentBuffer];
        if nextBuffer.Some? {
          currentBuffer := nextBuffer.value;
          nextBuffer := None;
        } else {
          currentBuffer := [];
        }
        if HasRoom(currentBuffer, logline) {
          appended := appended + [logline];
        }
        currentBuffer := AppendTo(currentBuffer, logline);
      }
    }

    method AppendAll(lines: seq<Line>)
      requires Valid()
      modifies this`currentBuffer, this`nextBuffer, this`buffers, this`appended
      ensures Valid() && Model() == Run(old(Model()), AppendSteps(lines))
      ensures appended == old(appended) + Accepted(lines)
    {
      hide Inv, Apply;
      ghost var s := Model();
      for i := 0 to |lines|
        invariant Valid() && Model() == Run(s, AppendSteps(lines[..i]))
        invariant appended == s.appended + Accepted(lines[..i])
      {
        LineNext(s, lines, i);
        Append(lines[i]);
      }
      assert lines[..|lines|] == lines;
    }

    /** The locked region of `threadFunc`, after its wait. */
    method Swap()
      requires Valid() && pc.Waiting?
      modifies this`currentBuffer, this`nextBuffer, this`buffers, this`pc, this`newBuffer1, this`newBuffer2
      modifies this`buffersToWrite, this`batches
      ensures Valid() && pc.Swapped? && buffersToWrite != []
      ensures Model() == Apply(old(Model()), AsyncState.Swap)
      ensures buffersToWrite == old(buffers) + [old(currentBuffer)] && batches == old(batches) + [buffersToWrite]
      ensures currentBuffer == [] && buffers == [] && newBuffer1 == None
      ensures nextBuffer == (if old(nextBuffer).None? then Some([]) else old(nextBuffer))
      ensures newBuffer2 == (if old(nextBuffer).None? then None else Some([]))
    {
      hide Inv;
      ghost var s := Model();
      SparesReady(s);
      hide Enabled;
      SwapInv(s);
      assert newBuffer1 == Some([]) && newBuffer2 == Some([]) && buffersToWrite == [];
      buffersToWrite := buffers + [currentBuffer];
      batches := batches + [buffersToWrite];
      buffers, currentBuffer := [], newBuffer1.value;
      newBuffer1, pc := None, Swapped;
      if nextBuffer.None? {
        nextBuffer := newBuffer2;
        newBuffer2 := None;
      }
      assert Model() == SwapBuffers(s);
    }

    method DropExcess()
      requires Valid() && pc.Swapped?
      modifies this`buffersToWrite, this`output, this`pc
      ensures Valid() && pc == Writing(0)
      ensures Model() == Apply(old(Model()), AsyncState.DropExcess)
      ensures |old(buffersToWrite)| > 25 ==>
                && buffersToWrite == [old(buffersToWrite)[0], old(buffersToWrite)[1]]
                && output == old(output) + [DropNotice(|old(buffersToWrite)| - 2)]
      ensures |old(buffersToWrite)| <= 25 ==> buffersToWrite == old(buffersToWrite) && output == old(output)
    {
      hide Inv;
      DropInv(Model());
      if |buffersToWrite| > MAX_BATCH {
        output := output + [DropNotice(|buffersToWrite| - 2)];
        buffersToWrite := buffersToWrite[..2];
      }
      pc := Writing(0);
    }

    method WriteNext(i: nat)
      requires Valid() && pc == Writing(i) && i < |buffersToWrite|
      modifies this`output, this`pc
      ensures Valid() && pc == Writing(i + 1) && Model() == Apply(old(Model()), WriteOne)
      ensures output == old(output) + [Chunk(buffersToWrite[i])]
    {
      hide Inv;
      WriteOneInv(Model());
      output := output + [Chunk(buffersToWrite[i])];
      pc := Writing(i + 1);
    }

    /** The loop that writes the batch, producers appending meanwhile. */
    method WriteAll(during: seq<seq<Line>>)
      requires Valid() && pc == Writing(0)
      modifies this
      ensures Valid() && pc == Writing(|buffersToWrite|)
      ensures buffersToWrite == old(buffersToWrite) && batches == old(batches)
      ensures Model() == Run(old(Model()), WriteSteps(|buffersToWrite|, during))
    {
      hide Inv, Apply;
      ghost var s := Model();
      for i := 0 to |buffersToWrite|
        invariant Valid() && pc == Writing(i) && buffersToWrite == s.toWrite && batches == s.batches
        invariant Model() == Run(s, WriteSteps(i, during))
      {
        var lines := if i < |during| then during[i] else [];
        ghost var s1 := Model();
        AppendAll(lines);
        WrittenNext(s, s1, i, during);
        WriteNext(i);
      }
    }

    /** The end of the loop body: at most two buffers are kept, and popped to replace the spares used. */
    method RecycleSpares()
      requires Valid() && pc == Writing(|buffersToWrite|)
      modifies this`newBuffer1, this`newBuffer2, this`buffersToWrite, this`pc
      ensures Valid() && pc.AtTop? && newBuffer1 == Some([]) && newBuffer2 == Some([]) && buffersToWrite == []
      ensures Model() == Apply(old(Model()), Recycle)
    {
      hide Inv;
      SparesRecoverable(Model());
      RecycleInv(Model());
      if |buffersToWrite| > 2 {
        buffersToWrite := buffersToWrite[..2];
      }
      if newBuffer1.None? {
        assert |buffersToWrite| > 0;
        buffersToWrite := buffersToWrite[..|buffersToWrite| - 1];
        newBuffer1 := Some([]);
      }
      if newBuffer2.None? {
        assert |buffersToWrite| > 0;
        buffersToWrite := buffersToWrite[..|buffersToWrite| - 1];
        newBuffer2 := Some([]);
      }
      buffersToWrite := [];
      pc := AtTop;
    }

    /**
     One pass of the backend loop, from the wait to the flush. Producers append `waiting` before the swap,
     and `swapped`, `during` and `ending` after it, beside the backend.
     */
    method OnePass(waiting: seq<Line>, swapped: seq<Line>, during: seq<seq<Line>>, ending: seq<Line>)
      requires Valid() && pc.Waiting?
      modifies this
      ensures Valid() && pc.AtTop? && output == EmitAll(batches)
      ensures FlatBatches(batches) == old(appended) + Accepted(waiting)
      ensures FlatBatches(batches) + Flat(buffers) + currentBuffer == appended
    {
      hide Inv, Apply, EmitAll, FlatBatches, Flat, Accepted;
      AppendAll(waiting);
      ghost var s := Model();
      SparesReady(s);
      Swap();
      SwappedAll(s);
      AppendAll(swapped);
      DropExcess();
      WriteAll(during);
      AppendAll(ending);
      RecycleSpares();
      AtRest(Model());
    }
  }

  /** A buffer that is taken into use starts with the line, or stays empty when no buffer can hold it. */
  lemma AppendStarts(s: State, line: Line)
    requires Inv(s)
    ensures AppendTo([], line) == if |line| < 4_000_000 then [line] else []
    ensures s.next.Some? ==> s.next.value == []
  {
    AppendToNone(line);
    EmptyHasRoom(line);
    hide HasRoom, AppendTo, Length;
  }

  lemma LineNext(s: State, lines: seq<Line>, i: nat)
    requires i < |lines|
    ensures Run(s, AppendSteps(lines[..i + 1])) == Apply(Run(s, AppendSteps(lines[..i])), Append(lines[i]))
    ensures Accepted(lines[..i + 1]) == Accepted(lines[..i]) + if |lines[i]| < 4_000_000 then [lines[i]] else []
  {
    hide Apply;
    assert lines[..i + 1][..i] == lines[..i];
    RunConcat(s, AppendSteps(lines[..i]), [Append(lines[i])]);
    var s1 := Run(s, AppendSteps(lines[..i]));
    assert Run(s1, [Append(lines[i])]) == Run(Apply(s1, Append(lines[i])), []);
  }

  lemma WrittenNext(s: State, s1: State, i: nat, during: seq<seq<Line>>)
    requires s1 == Run(s, WriteSteps(i, during))
    ensures Run(s, WriteSteps(i + 1, during))
         == Apply(Run(s1, AppendSteps(if i < |during| then during[i] else [])), WriteOne)
  {
    hide Apply, AppendSteps;
    var appends := AppendSteps(if i < |during| then during[i] else []);
    RunConcat(s, WriteSteps(i, during), appends + [WriteOne]);
    RunConcat(s1, appends, [WriteOne]);
    var s2 := Run(s1, appends);
    assert Run(s2, [WriteOne]) == Run(Apply(s2, WriteOne), []);
  }

  lemma SparesReady(s: State)
    requires Inv(s) && s.pc.Waiting?
    ensures Enabled(s, AsyncState.Swap) && s.spare1 == Some([]) && s.spare2 == Some([]) && s.toWrite == []
  {
  }

  lemma SparesRecoverable(s: State)
    requires Inv(s) && s.pc == Writing(|s.toWrite|)
    ensures Enabled(s, Recycle)
    ensures s.spare1.Some? ==> s.spare1.value == []
    ensures s.spare2.Some? ==> s.spare2.value == []
  {
  }

  lemma SwappedAll(s: State)
    requires Inv(s) && Enabled(s, AsyncState.Swap)
    ensures FlatBatches(Apply(s, AsyncState.Swap).batches) == s.appended
  {
    SwappedOut(s);
  }

  lemma AtRest(s: State)
    requires Inv(s) && s.pc.AtTop?
    ensures s.output == EmitAll(s.batches) && FlatBatches(s.batches) + Flat(s.buffers) + s.current == s.appended
  {
    hide EmitAll, FlatBatches, Flat, Spares;
  }
}
