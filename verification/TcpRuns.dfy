/** What the output path of a connection keeps over whole runs, and exactly when. */
module TcpRuns {
  import opened Buffers
  import opened TcpState

  /** `P` holds at every moment of the run. */
  predicate Always(P: State -> bool, s: State, steps: seq<Step>) {
    forall k :: 0 <= k <= |steps| ==> P(Run(s, steps[..k]))
  }

  lemma AlwaysNext(P: State -> bool, s: State, steps: seq<Step>)
    requires steps != []
    ensures Always(P, s, steps) <==> P(s) && Always(P, Apply(s, steps[0]), steps[1..])
  {
    var s1, rest := Apply(s, steps[0]), steps[1..];
    forall k | 0 < k <= |steps| ensures Run(s, steps[..k]) == Run(s1, rest[..k - 1]) {
      assert steps[..k][0] == steps[0] && steps[..k][1..] == rest[..k - 1];
    }
    assert Run(s, steps[..0]) == s;
    hide Apply, Run;
    if Always(P, s, steps) {
      forall k | 0 <= k <= |rest| ensures P(Run(s1, rest[..k])) {
        assert P(Run(s, steps[..k + 1]));
      }
    }
    if P(s) && Always(P, s1, rest) {
      forall k | 0 < k <= |steps| ensures P(Run(s, steps[..k])) {
        assert P(Run(s1, rest[..k - 1]));
      }
    }
  }

  lemma AlwaysNow(P: State -> bool, s: State, steps: seq<Step>)
    requires steps == []
    ensures Always(P, s, steps) <==> P(s)
  {
    assert forall k :: 0 <= k <= |steps| ==> steps[..k] == [];
    assert Run(s, steps[..0]) == s;
  }

  // ---------- The stream ----------

  /** In every run, what the socket took and then the output buffer are the accepted messages in order. */
  lemma StreamPreserved(mark: nat, steps: seq<Step>)
    ensures var s := Run(Init(mark), steps); s.sent + s.output == Concat(s.accepted)
  {
    InitInv(mark);
    RunInv(Init(mark), steps);
    hide Concat;
  }

  /**
   At every moment of a run, while up, the channel writes exactly when the buffer holds something: if and
   only if no call by another thread sets the state after a close it did not see, over unsent bytes.
   */
  lemma {:induction false} WritesIff(s: State, steps: seq<Step>)
    requires Inv(s) && Writes(s)
    ensures Always(Writes, s, steps) <==> !RunStrands(s, steps)
    decreases |steps|
  {
    if steps == [] {
      AlwaysNow(Writes, s, steps);
    } else {
      AlwaysNext(Writes, s, steps);
      StepInv(s, steps[0]);
      var s1 := Apply(s, steps[0]);
      if Strands(s, steps[0]) {
        StrandedNotWriting(s, steps[0]);
        assert Run(s1, steps[1..][..0]) == s1;
        assert !Always(Writes, s1, steps[1..]);
      } else {
        StepWrites(s, steps[0]);
        hide Writes, Inv, Apply, Strands;
        WritesIff(s1, steps[1..]);
      }
    }
  }

  lemma StrandedNotWriting(s: State, step: Step)
    requires Inv(s) && Strands(s, step)
    ensures !Writes(Apply(s, step))
  {
    hide Preserved, Fresh;
  }

  // ---------- Going down ----------

  /** How often the connection went down and was set up again. */
  function Downs(s: State): int {
    s.closes + s.dropped - if s.phase.Disconnected? then 1 else 0
  }

  lemma StepDowns(s: State, step: Step)
    requires Inv(s)
    ensures Downs(Apply(s, step)) == Downs(s) + if Overtaken(s, step) then 1 else 0
  {
    hide Preserved, Fresh;
  }

  lemma {:induction false} RunDowns(s: State, steps: seq<Step>)
    requires Inv(s)
    ensures Downs(Run(s, steps)) == Downs(s) + Overtakings(s, steps)
    decreases |steps|
  {
    if steps != [] {
      StepDowns(s, steps[0]);
      StepInv(s, steps[0]);
      hide Inv, Downs, Overtaken;
      RunDowns(Apply(s, steps[0]), steps[1..]);
    }
  }

  /** In every run the connection goes down once, and once more for each call that a close has overtaken. */
  lemma ClosesCounted(mark: nat, steps: seq<Step>)
    ensures var s := Run(Init(mark), steps);
            s.closes + s.dropped == Overtakings(Init(mark), steps) + if s.phase.Disconnected? then 1 else 0
  {
    InitInv(mark);
    RunDowns(Init(mark), steps);
  }

  /**
   In every run a channel that has events finds the connection up; it reads exactly while the connection
   is up and no call has been overtaken by a close.
   */
  lemma CloseFindsItUp(mark: nat, steps: seq<Step>)
    ensures var s := Run(Init(mark), steps);
            && (s.reading || s.writing ==> IsUp(s))
            && (s.reading <==> IsUp(s) && Overtakings(Init(mark), steps) == 0)
  {
    InitInv(mark);
    RunInv(Init(mark), steps);
    ClosesCounted(mark, steps);
    hide Run, Overtakings, Preserved, Fresh;
  }

  /** A hang-up that epoll may report now finds the connection up, as `handleClose` asserts. */
  predicate CloseAsserts(s: State) {
    s.watched ==> IsUp(s)
  }

  /** `handleClose` runs for a channel that epoll does not watch, and so adds it, with an empty mask. */
  predicate ClosesUnwatched(s: State, step: Step) {
    Enabled(s, step) && Apply(s, step).closes > s.closes && !s.watched
  }

  predicate RunClosesUnwatched(s: State, steps: seq<Step>)
    decreases |steps|
  {
    steps != [] && (ClosesUnwatched(s, steps[0]) || RunClosesUnwatched(Apply(s, steps[0]), steps[1..]))
  }

  /**
   The assertion of `handleClose` can be met by a hang-up at every moment of a run if and only if no
   functor of `forceClose` closes a connection whose channel epoll does not watch.
   */
  lemma CloseAssertsIff(mark: nat, steps: seq<Step>)
    ensures Always(CloseAsserts, Init(mark), steps) <==> !RunClosesUnwatched(Init(mark), steps)
  {
    InitInv(mark);
    AssertsIff(Init(mark), steps);
  }

  lemma {:induction false} AssertsIff(s: State, steps: seq<Step>)
    requires Inv(s) && CloseAsserts(s)
    ensures Always(CloseAsserts, s, steps) <==> !RunClosesUnwatched(s, steps)
    decreases |steps|
  {
    if steps == [] {
      AlwaysNow(CloseAsserts, s, steps);
    } else {
      AlwaysNext(CloseAsserts, s, steps);
      StepInv(s, steps[0]);
      StepAsserts(s, steps[0]);
      var s1 := Apply(s, steps[0]);
      hide CloseAsserts, Inv, Apply, ClosesUnwatched;
      if ClosesUnwatched(s, steps[0]) {
        assert Run(s1, steps[1..][..0]) == s1;
        assert !Always(CloseAsserts, s1, steps[1..]);
      } else {
        AssertsIff(s1, steps[1..]);
      }
    }
  }

  lemma StepAsserts(s: State, step: Step)
    requires Inv(s) && CloseAsserts(s)
    ensures CloseAsserts(Apply(s, step)) <==> !ClosesUnwatched(s, step)
  {
    hide Preserved, ShutdownsQueued;
  }

  /** Which needs a call that a close has overtaken. */
  lemma UnwatchedOnlyOvertaken(mark: nat, steps: seq<Step>)
    requires Overtakings(Init(mark), steps) == 0
    ensures !RunClosesUnwatched(Init(mark), steps)
  {
    AsPromisedIff(mark, steps);
    CloseAssertsIff(mark, steps);
    var s := Init(mark);
    hide Run, AsPromised, CloseAsserts, RunClosesUnwatched, Overtakings;
    forall k | 0 <= k <= |steps| ensures CloseAsserts(Run(s, steps[..k])) {
      PromiseAsserts(Run(s, steps[..k]));
    }
  }

  lemma PromiseAsserts(s: State)
    requires AsPromised(s)
    ensures CloseAsserts(s)
  {
    hide Tidy;
  }

  /** What `state_`, the channel and the half-closes promise together. */
  predicate AsPromised(s: State) {
    && (s.reading <==> IsUp(s))
    && CloseAsserts(s)
    && Tidy(s)
    && s.closes <= 1
  }

  /** All of it holds at every moment of a run if and only if no close falls between the test and the set of a call. */
  lemma AsPromisedIff(mark: nat, steps: seq<Step>)
    ensures Always(AsPromised, Init(mark), steps) <==> Overtakings(Init(mark), steps) == 0
  {
    InitInv(mark);
    PromisedIff(Init(mark), steps);
  }

  lemma {:induction false} PromisedIff(s: State, steps: seq<Step>)
    requires Inv(s) && AsPromised(s) && Downs(s) == 0
    ensures Always(AsPromised, s, steps) <==> Overtakings(s, steps) == 0
    decreases |steps|
  {
    if steps == [] {
      AlwaysNow(AsPromised, s, steps);
    } else {
      AlwaysNext(AsPromised, s, steps);
      StepInv(s, steps[0]);
      StepDowns(s, steps[0]);
      var s1 := Apply(s, steps[0]);
      if Overtaken(s, steps[0]) {
        OvertakenNotReading(s, steps[0]);
        assert Run(s1, steps[1..][..0]) == s1;
        assert !Always(AsPromised, s1, steps[1..]);
      } else {
        StepTidy(s, steps[0]);
        StillPromised(s1);
        hide AsPromised, Inv, Apply, Overtaken, Downs, Tidy;
        PromisedIff(s1, steps[1..]);
      }
    }
  }

  lemma OvertakenNotReading(s: State, step: Step)
    requires Inv(s) && Overtaken(s, step)
    ensures !AsPromised(Apply(s, step))
  {
    hide Preserved, Fresh, Tidy;
  }

  lemma StillPromised(s: State)
    requires Inv(s) && Tidy(s) && Downs(s) == 0
    ensures AsPromised(s)
  {
    hide Preserved, Fresh, Tidy;
  }

  // ---------- Half-close ----------

  /** In every run that strands no bytes, a half-close finds all accepted bytes sent, unless the connection is down. */
  lemma HalfCloseAfterDrain(mark: nat, steps: seq<Step>)
    requires !RunStrands(Init(mark), steps)
    ensures var s := Run(Init(mark), steps);
            forall h <- s.halfCloses :: h.unsent == [] || h.phase.Disconnected?
  {
    InitInv(mark);
    RunTidy(Init(mark), steps);
    hide Run, RunStrands, Writes;
  }

  /** `shutdownInLoop` half-closes over unsent bytes exactly on a connection that went down with bytes to send. */
  lemma HalfCloseOverUnsent(mark: nat, steps: seq<Step>)
    requires !RunStrands(Init(mark), steps)
    ensures var s := Run(Init(mark), steps);
            !s.phase.Connecting? ==>
              (ShutdownInLoop(s).halfCloses == s.halfCloses + [HalfClose(s.phase, s.output)] && s.output != []
               <==> s.phase.Disconnected? && s.output != [])
  {
    InitInv(mark);
    RunInv(Init(mark), steps);
    RunTidy(Init(mark), steps);
    hide Run, RunStrands, Preserved, Fresh, HalfClosesLast;
    var s := Run(Init(mark), steps);
    assert |s.halfCloses + [HalfClose(s.phase, s.output)]| != |s.halfCloses|;
  }

  /** The step that half-closes an open connection leaves nothing unsent. */
  lemma HalfCloseMeansAllSent(s: State, step: Step)
    requires Inv(s) && Tidy(s) && |Apply(s, step).halfCloses| > |s.halfCloses|
    ensures IsUp(Apply(s, step)) ==> Apply(s, step).sent == Concat(Apply(s, step).accepted)
  {
    StepInv(s, step);
    assert !step.Set?;
    StepTidy(s, step);
    var s' := Apply(s, step);
    hide Concat, Apply, Events, Fresh, Writes;
    assert s'.halfCloses != [];
    assert s'.sent + [] == s'.sent;
  }

  /** A half-close of an apparently open connection, over unsent bytes. */
  predicate HalfClosedTooEarly(s: State) {
    exists h <- s.halfCloses :: h.unsent != [] && !h.phase.Disconnected?
  }

  /**
   A `shutdown` whose test a close has overtaken can half-close too early, nothing else being
   overtaken, if and only if the close left bytes unsent.
   */
  lemma OvertakenShutdown(s: State, tid: nat)
    requires Inv(s) && Tidy(s) && s.phase.Disconnected?
    requires tid in s.callers && s.callers[tid] == Tested(ShutdownCall)
    ensures (exists before, after :: TooEarlyBy(s, tid, before, after)) <==> s.output != []
  {
    if s.output != [] {
      var before := Flush(|s.pending|);
      FlushDown(s);
      ThenShutdown(Run(s, before), tid);
      hide Run, Overtakings, Flush, HalfClosedTooEarly, Apply;
      assert TooEarlyBy(s, tid, before, [Queue(tid), RunFunctor(Error(EPIPE))]);
    } else {
      forall before, after ensures !TooEarlyBy(s, tid, before, after) {
        if TooEarlyBy(s, tid, before, after) {
          NeverTooEarly(s, tid, before, after);
        }
      }
    }
  }

  predicate TooEarlyBy(s: State, tid: nat, before: seq<Step>, after: seq<Step>) {
    var s1 := Apply(Run(s, before), Set(tid));
    Overtakings(s, before) == 0 && Overtakings(s1, after) == 0 && HalfClosedTooEarly(Run(s1, after))
  }

  lemma NeverTooEarly(s: State, tid: nat, before: seq<Step>, after: seq<Step>)
    requires Inv(s) && Tidy(s) && s.phase.Disconnected? && s.output == []
    requires Overtakings(s, before) == 0
    requires Overtakings(Apply(Run(s, before), Set(tid)), after) == 0
    ensures !HalfClosedTooEarly(Run(Apply(Run(s, before), Set(tid)), after))
  {
    NotOvertakenNotStranded(s, before);
    RunInv(s, before);
    RunTidy(s, before);
    StaysDown(s, before);
    var s0 := Run(s, before);
    var s1 := Apply(s0, Set(tid));
    assert !Strands(s0, Set(tid));
    hide Run, Overtakings, Inv, Tidy, Apply, Strands;
    StepInv(s0, Set(tid));
    StepTidy(s0, Set(tid));
    NotOvertakenNotStranded(s1, after);
    RunTidy(s1, after);
    TidyNotTooEarly(Run(s1, after));
  }

  lemma TidyNotTooEarly(s: State)
    requires Tidy(s)
    ensures !HalfClosedTooEarly(s)
  {
    hide Writes;
  }

  lemma {:induction false} NotOvertakenNotStranded(s: State, steps: seq<Step>)
    requires Overtakings(s, steps) == 0
    ensures !RunStrands(s, steps)
    decreases |steps|
  {
    hide Apply;
    if steps != [] {
      NotOvertakenNotStranded(Apply(s, steps[0]), steps[1..]);
    }
  }

  /** A connection that is down stays down, and so does its buffer, until a call is overtaken. */
  lemma {:induction false} StaysDown(s: State, steps: seq<Step>)
    requires Inv(s) && s.phase.Disconnected? && Overtakings(s, steps) == 0
    ensures Run(s, steps).phase.Disconnected? && Run(s, steps).output == s.output
    decreases |steps|
  {
    if steps != [] {
      StepStaysDown(s, steps[0]);
      StepInv(s, steps[0]);
      hide Inv, Apply;
      StaysDown(Apply(s, steps[0]), steps[1..]);
    }
  }

  lemma StepStaysDown(s: State, step: Step)
    requires Inv(s) && s.phase.Disconnected? && !Overtaken(s, step)
    ensures Apply(s, step).phase.Disconnected? && Apply(s, step).output == s.output
  {
    hide Preserved, Fresh;
  }

  /** The loop runs `n` queued functors; their writes, if any, fail. */
  function Flush(n: nat): seq<Step> {
    if n == 0 then [] else [RunFunctor(Error(EPIPE))] + Flush(n - 1)
  }

  lemma FlushNext(s: State)
    requires s.pending != []
    ensures var n := |s.pending|; Flush(n)[0] == RunFunctor(Error(EPIPE)) && Flush(n)[1..] == Flush(n - 1)
    ensures var s1 := Apply(s, RunFunctor(Error(EPIPE)));
            s1.pending == s.pending[1..] && s1.callers == s.callers && !Overtaken(s, RunFunctor(Error(EPIPE)))
  {
  }

  /** They can always run, all of them, and no call is overtaken meanwhile. */
  lemma {:induction false} FlushAll(s: State)
    requires Inv(s)
    ensures var s' := Run(s, Flush(|s.pending|)); Inv(s') && s'.pending == [] && s'.callers == s.callers
    ensures Overtakings(s, Flush(|s.pending|)) == 0
    decreases |s.pending|
  {
    if s.pending != [] {
      FlushNext(s);
      StepInv(s, RunFunctor(Error(EPIPE)));
      hide Inv, Apply, Flush, Overtaken;
      FlushAll(Apply(s, RunFunctor(Error(EPIPE))));
    }
  }

  lemma FlushDown(s: State)
    requires Inv(s) && s.phase.Disconnected?
    ensures var s' := Run(s, Flush(|s.pending|));
            && Inv(s') && s'.phase.Disconnected? && s'.pending == []
            && s'.callers == s.callers && s'.output == s.output && s'.watched == s.watched
    ensures Overtakings(s, Flush(|s.pending|)) == 0
  {
    FlushAll(s);
    StaysDown(s, Flush(|s.pending|));
    FlushUpdatesNothing(s);
  }

  lemma {:induction false} FlushUpdatesNothing(s: State)
    requires Inv(s) && s.phase.Disconnected?
    ensures Run(s, Flush(|s.pending|)).watched == s.watched
    decreases |s.pending|
  {
    if s.pending != [] {
      FlushNext(s);
      StepInv(s, RunFunctor(Error(EPIPE)));
      StepStaysDown(s, RunFunctor(Error(EPIPE)));
      assert Apply(s, RunFunctor(Error(EPIPE))).watched == s.watched;
      hide Inv, Apply, Flush;
      FlushUpdatesNothing(Apply(s, RunFunctor(Error(EPIPE))));
    }
  }

  /** Overtaken on an empty queue, `shutdown` half-closes whatever is unsent. */
  lemma ThenShutdown(s: State, tid: nat)
    requires Inv(s) && s.phase.Disconnected? && s.pending == [] && s.output != []
    requires tid in s.callers && s.callers[tid] == Tested(ShutdownCall)
    ensures var s1, after := Apply(s, Set(tid)), [Queue(tid), RunFunctor(Error(EPIPE))];
            Overtakings(s1, after) == 0 && HalfClosedTooEarly(Run(s1, after))
  {
    var a, b := Queue(tid), RunFunctor(Error(EPIPE));
    var s1 := Apply(s, Set(tid));
    var s2 := Apply(s1, a);
    var s3 := Apply(s2, b);
    assert [a, b][1..] == [b] && [b][1..] == [];
    assert Run(s1, [a, b]) == Run(s2, [b]) == Run(s3, []) == s3;
    assert Overtakings(s2, [b]) == 0;
    assert s2.pending == [ShutdownFunctor] && !s2.writing;
    assert s3.halfCloses[|s.halfCloses|] == HalfClose(Disconnecting, s.output);
  }

  /**
   Overtaken by a close, a `forceClose` closes again; and if epoll no longer watched the channel it does
   now, so that a hang-up would find the connection down.
   */
  lemma OvertakenForceClose(s: State, tid: nat)
    requires Inv(s) && s.phase.Disconnected?
    requires tid in s.callers && s.callers[tid] == Tested(ForceCloseCall)
    ensures var s' := Run(s, Flush(|s.pending|) + [Set(tid), Queue(tid), RunFunctor(Error(EPIPE))]);
            s'.closes > s.closes && (!s.watched ==> !CloseAsserts(s'))
  {
    var flush := Flush(|s.pending|);
    var a, b, c := Set(tid), Queue(tid), RunFunctor(Error(EPIPE));
    FlushDown(s);
    RunDowns(s, flush);
    ClosesGrow(s, flush);
    RunConcat(s, flush, [a, b, c]);
    var s0 := Run(s, flush);
    RunThree(s0, a, b, c);
    hide Run, Flush;
    var s2 := Apply(Apply(s0, a), b);
    assert s2.pending == [ForceCloseFunctor] && s2.phase == Disconnecting;
  }

  lemma {:induction false} ClosesGrow(s: State, steps: seq<Step>)
    ensures Run(s, steps).closes >= s.closes && s.halfCloses <= Run(s, steps).halfCloses
    decreases |steps|
  {
    if steps != [] {
      StepGrows(s, steps[0]);
      hide Apply;
      ClosesGrow(Apply(s, steps[0]), steps[1..]);
    }
  }

  lemma StepGrows(s: State, step: Step)
    ensures Apply(s, step).closes >= s.closes && s.halfCloses <= Apply(s, step).halfCloses
    ensures |Apply(s, step).halfCloses| <= |s.halfCloses| + 1
  {
    hide RunFirst, Drain, SendInLoop;
    if Enabled(s, step) {
      match step
      case Send(message, result) => SendOnly(s, message, result);
      case RunFunctor(result) => FunctorGrows(s, result);
      case HandleWrite(result) => DrainGrows(s, result);
      case _ =>
    }
  }

  lemma SendOnly(s: State, message: seq<Byte>, result: WriteResult)
    ensures var s' := SendInLoop(s, message, result); s'.closes == s.closes && s'.halfCloses == s.halfCloses
  {
  }

  lemma FunctorGrows(s: State, result: WriteResult)
    requires s.pending != []
    ensures var s' := RunFirst(s, result);
            s'.closes >= s.closes && s.halfCloses <= s'.halfCloses && |s'.halfCloses| <= |s.halfCloses| + 1
  {
    hide SendInLoop;
    if s.pending[0].SendFunctor? {
      SendOnly(s.(pending := s.pending[1..]), s.pending[0].message, result);
    }
  }

  lemma DrainGrows(s: State, result: WriteResult)
    ensures var s' := Drain(s, result);
            s'.closes == s.closes && s.halfCloses <= s'.halfCloses && |s'.halfCloses| <= |s.halfCloses| + 1
  {
  }

  lemma RunThree(s: State, a: Step, b: Step, c: Step)
    ensures Run(s, [a, b, c]) == Apply(Apply(Apply(s, a), b), c)
  {
    assert [a, b, c][1..] == [b, c] && [b, c][1..] == [c];
    hide Apply;
    RunOne(Apply(Apply(s, a), b), c);
    assert Run(Apply(s, a), [b, c]) == Run(Apply(Apply(s, a), b), [c]);
  }

  // ---------- How many half-closes ----------

  lemma CallersSet(callers: map<nat, Caller>, tid: nat, caller: Caller)
    ensures !caller.call.ShutdownCall? && tid !in callers ==>
              ShutdownCallers(callers[tid := caller]) == ShutdownCallers(callers)
    ensures tid in callers && caller.call == callers[tid].call ==>
              ShutdownCallers(callers[tid := caller]) == ShutdownCallers(callers)
  {
  }

  lemma CallersLeft(callers: map<nat, Caller>, tid: nat)
    requires tid in callers
    ensures |ShutdownCallers(callers)|
         == |ShutdownCallers(callers - {tid})| + if callers[tid].call.ShutdownCall? then 1 else 0
  {
    assert ShutdownCallers(callers - {tid}) == ShutdownCallers(callers) - {tid};
  }

  /** Once half-closed, each half-close uses up a `shutdown` under way, and no more of those begin. */
  lemma StepCounts(s: State, step: Step)
    requires Inv(s) && s.halfCloses != []
    ensures |Apply(s, step).halfCloses| + UnderWay(Apply(s, step)) <= |s.halfCloses| + UnderWay(s)
    ensures Tidy(s) ==>
              |Apply(s, step).halfCloses| + UnderWay(Apply(s, step)) == |s.halfCloses| + UnderWay(s)
  {
    if Enabled(s, step) {
      match step
      case Test(tid, call) => CallersSet(s.callers, tid, Tested(call));
      case Set(tid) => CallersSet(s.callers, tid, Leaving(s.callers[tid].call));
      case Queue(tid) =>
        CallersLeft(s.callers, tid);
        QueuedShutdowns(s.pending, s.callers[tid].call);
      case ForceClose => ShutdownsAppend(s.pending, ForceCloseFunctor);
      case RunFunctor(result) => FunctorCounts(s, result);
      case _ =>
    }
    hide Preserved, ShutdownsQueued, ShutdownCallers, Queued;
  }

  lemma FunctorCounts(s: State, result: WriteResult)
    requires Inv(s) && s.halfCloses != [] && Enabled(s, RunFunctor(result))
    ensures var s' := RunFirst(s, result);
            && s'.callers == s.callers
            && |s'.halfCloses| + ShutdownsQueued(s'.pending) <= |s.halfCloses| + ShutdownsQueued(s.pending)
            && (Tidy(s) ==>
                  |s'.halfCloses| + ShutdownsQueued(s'.pending) == |s.halfCloses| + ShutdownsQueued(s.pending))
  {
    hide Preserved, Concat;
  }

  lemma {:induction false} RunCounts(s: State, steps: seq<Step>)
    requires Inv(s) && s.halfCloses != []
    ensures |Run(s, steps).halfCloses| + UnderWay(Run(s, steps)) <= |s.halfCloses| + UnderWay(s)
    ensures Tidy(s) && !RunStrands(s, steps) ==>
              |Run(s, steps).halfCloses| + UnderWay(Run(s, steps)) == |s.halfCloses| + UnderWay(s)
    decreases |steps|
  {
    if steps != [] {
      var s1 := Apply(s, steps[0]);
      StepCounts(s, steps[0]);
      StepInv(s, steps[0]);
      ClosesGrow(s, [steps[0]]);
      RunOne(s, steps[0]);
      if Tidy(s) && !Strands(s, steps[0]) {
        StepTidy(s, steps[0]);
      }
      hide Inv, Apply, Tidy, UnderWay, Strands;
      RunCounts(s1, steps[1..]);
    }
  }

  /**
   In a run that strands no bytes, after the first half-close there is one more for each `shutdown`
   under way at that moment whose functor has run since.
   */
  lemma HalfClosesCounted(mark: nat, before: seq<Step>, step: Step, after: seq<Step>)
    requires Run(Init(mark), before).halfCloses == []
    requires !RunStrands(Init(mark), before + ([step] + after))
    ensures var s1 := Apply(Run(Init(mark), before), step);
            |s1.halfCloses| == 1 ==>
              |Run(s1, after).halfCloses| == 1 + UnderWay(s1) - UnderWay(Run(s1, after))
  {
    InitInv(mark);
    var s := Run(Init(mark), before);
    var s1 := Apply(s, step);
    StrandsConcat(Init(mark), before, [step] + after);
    assert ([step] + after)[1..] == after;
    RunInv(Init(mark), before);
    RunTidy(Init(mark), before);
    hide Run, Inv, Tidy, UnderWay, Apply;
    StepInv(s, step);
    StepTidy(s, step);
    if |s1.halfCloses| == 1 {
      RunCounts(s1, after);
    }
  }

  lemma {:induction false} StrandsConcat(s: State, a: seq<Step>, b: seq<Step>)
    ensures RunStrands(s, a + b) <==> RunStrands(s, a) || RunStrands(Run(s, a), b)
    decreases |a|
  {
    hide Apply, Strands;
    if a == [] {
      assert a + b == b;
    } else {
      assert (a + b)[1..] == a[1..] + b;
      StrandsConcat(Apply(s, a[0]), a[1..], b);
    }
  }

  /** A half-close is the last one, in every continuation, if and only if no `shutdown` is under way. */
  lemma HalfCloseIsFinal(s: State)
    requires Inv(s) && Tidy(s) && s.halfCloses != []
    ensures (forall steps :: Run(s, steps).halfCloses == s.halfCloses) <==> UnderWay(s) == 0
  {
    if UnderWay(s) == 0 {
      forall steps ensures Run(s, steps).halfCloses == s.halfCloses {
        RunCounts(s, steps);
        ClosesGrow(s, steps);
        hide Run, Inv, Tidy, UnderWay;
      }
    } else {
      var steps := HalfCloseAgain(s);
    }
  }

  lemma HalfCloseAgain(s: State) returns (steps: seq<Step>)
    requires Inv(s) && Tidy(s) && s.halfCloses != [] && UnderWay(s) > 0
    ensures Run(s, steps).halfCloses != s.halfCloses
  {
    steps := Flush(|s.pending|);
    FlushAll(s);
    NotOvertakenNotStranded(s, steps);
    RunTidy(s, steps);
    RunCounts(s, steps);
    ClosesGrow(s, steps);
    var s' := Run(s, steps);
    hide Inv, Tidy, Run, Flush, ShutdownCallers;
    if |s'.halfCloses| == |s.halfCloses| {
      var tid :| tid in ShutdownCallers(s.callers);
      AgainBy(s', tid);
      RunConcat(s, steps, [Set(tid), Queue(tid), RunFunctor(Error(EPIPE))]);
      steps := steps + [Set(tid), Queue(tid), RunFunctor(Error(EPIPE))];
    }
  }

  lemma AgainBy(s: State, tid: nat)
    requires Inv(s) && Tidy(s) && s.halfCloses != [] && s.pending == []
    requires tid in ShutdownCallers(s.callers)
    ensures |Run(s, [Set(tid), Queue(tid), RunFunctor(Error(EPIPE))]).halfCloses| > |s.halfCloses|
  {
    assert !s.writing;
    hide Inv, Tidy, Run, Apply;
    RunThree(s, Set(tid), Queue(tid), RunFunctor(Error(EPIPE)));
    SetAndQueue(s, tid);
    FunctorHalfCloses(Apply(Apply(s, Set(tid)), Queue(tid)));
  }

  lemma SetAndQueue(s: State, tid: nat)
    requires tid in ShutdownCallers(s.callers) && s.pending == []
    ensures var s2 := Apply(Apply(s, Set(tid)), Queue(tid));
            s2.pending == [ShutdownFunctor] && s2.writing == s.writing && s2.halfCloses == s.halfCloses
  {
    var s1 := Apply(s, Set(tid));
    assert s1.callers[tid] == Leaving(ShutdownCall) && s1.pending == [];
    assert [] + [ShutdownFunctor] == [ShutdownFunctor];
  }

  lemma FunctorHalfCloses(s: State)
    requires s.pending == [ShutdownFunctor] && !s.writing
    ensures |Apply(s, RunFunctor(Error(EPIPE))).halfCloses| == |s.halfCloses| + 1
  {
  }

  /** Every `shutdown` of the run is called in the loop thread. */
  predicate ShutdownsInLoop(steps: seq<Step>) {
    forall step <- steps :: !(step.Test? && step.call.ShutdownCall?)
  }

  /** So a connection shut down only from its own loop half-closes at most once, overtaken calls or not. */
  lemma HalfCloseOnce(mark: nat, steps: seq<Step>)
    requires ShutdownsInLoop(steps)
    ensures |Run(Init(mark), steps).halfCloses| <= 1
  {
    InitInv(mark);
    OnceInLoop(Init(mark), steps);
  }

  lemma {:induction false} OnceInLoop(s: State, steps: seq<Step>)
    requires Inv(s) && ShutdownsInLoop(steps) && UnderWay(s) == 0 && |s.halfCloses| <= 1
    ensures |Run(s, steps).halfCloses| <= 1
    decreases |steps|
  {
    if steps != [] {
      assert steps[0] in steps;
      assert forall step <- steps[1..] :: step in steps;
      NoneUnderWay(s, steps[0]);
      if s.halfCloses != [] {
        StepCounts(s, steps[0]);
      }
      StepInv(s, steps[0]);
      StepGrows(s, steps[0]);
      hide Inv, Apply, UnderWay;
      OnceInLoop(Apply(s, steps[0]), steps[1..]);
    }
  }

  lemma NoneUnderWay(s: State, step: Step)
    requires UnderWay(s) == 0 && !(step.Test? && step.call.ShutdownCall?)
    ensures UnderWay(Apply(s, step)) == 0
  {
    hide ShutdownsQueued, ShutdownCallers, Queued, SendInLoop, Drain, Drained, ShutdownInLoop;
    FirstQueued(s.pending);
    if Enabled(s, step) {
      match step
      case Test(tid, call) => CallersSet(s.callers, tid, Tested(call));
      case Set(tid) => CallersSet(s.callers, tid, Leaving(s.callers[tid].call));
      case DestroyOver(tid) => CallersSet(s.callers, tid, Leaving(s.callers[tid].call));
      case Queue(tid) =>
        CallersLeft(s.callers, tid);
        QueuedShutdowns(s.pending, s.callers[tid].call);
      case ForceClose => ShutdownsAppend(s.pending, ForceCloseFunctor);
      case Send(message, result) => SendQueuesNothing(s, message, result);
      case RunFunctor(result) => FunctorUnqueued(s, result);
      case HandleWrite(result) => DrainQueuesNothing(s, result);
      case Shutdown => DrainQueuesNothing(s, Error(Other));
      case _ =>
    }
  }

  lemma SendQueuesNothing(s: State, message: seq<Byte>, result: WriteResult)
    ensures var s' := SendInLoop(s, message, result); s'.pending == s.pending && s'.callers == s.callers
  {
  }

  lemma DrainQueuesNothing(s: State, result: WriteResult)
    ensures var s' := Drain(s, result); s'.pending == s.pending && s'.callers == s.callers
    ensures var s' := ShutdownInLoop(s.(phase := Disconnecting)); s'.pending == s.pending && s'.callers == s.callers
  {
  }

  lemma FunctorUnqueued(s: State, result: WriteResult)
    requires s.pending != []
    ensures var s' := RunFirst(s, result); s'.pending == s.pending[1..] && s'.callers == s.callers
  {
    hide SendInLoop;
    if s.pending[0].SendFunctor? {
      SendQueuesNothing(s.(pending := s.pending[1..]), s.pending[0].message, result);
    }
  }

  /** Connected, with one byte to send, while thread 7 calls `shutdown`. */
  const MID_CALL: State :=
    State(Connected, true, true, true, [1], [], map[7 := Tested(ShutdownCall)], 100, [], [], [[1]], [], 0, 0)

  /** The run that leads there, and from there to a close that the call does not see. */
  lemma MidCallWitness()
    ensures Run(Init(100), [Establish, Send([1], Error(EWOULDBLOCK)), Test(7, ShutdownCall)]) == MID_CALL
    ensures var s := Apply(MID_CALL, HandleClose);
            s.phase.Disconnected? && s.output == [1] && s.callers[7] == Tested(ShutdownCall)
  {
    var a, b, c := Establish, Send([1], Error(EWOULDBLOCK)), Test(7, ShutdownCall);
    RunThree(Init(100), a, b, c);
    var s2 := Apply(Apply(Init(100), a), b);
    assert s2 == MID_CALL.(callers := map[]);
  }

  /** And from there to two half-closes: the buffer drains before the functor of `shutdown` runs. */
  lemma TwiceWitness()
    ensures var steps := [Set(7), Queue(7), HandleWrite(Wrote(1))] + [RunFunctor(Error(EPIPE))];
            |Run(MID_CALL, steps).halfCloses| == 2
  {
    var a, b, c, d := Set(7), Queue(7), HandleWrite(Wrote(1)), RunFunctor(Error(EPIPE));
    var s1 := Apply(MID_CALL, a);
    var s2 := Apply(s1, b);
    assert s2.pending == [ShutdownFunctor] && s2.phase == Disconnecting && s2.writing && s2.output == [1];
    DrainedThenFunctor(s2);
    RunConcat(MID_CALL, [a, b, c], [d]);
    RunThree(MID_CALL, a, b, c);
    hide Apply;
    RunOne(Run(MID_CALL, [a, b, c]), d);
  }

  lemma DrainedThenFunctor(s: State)
    requires s.pending == [ShutdownFunctor] && s.phase == Disconnecting && s.writing && s.output == [1]
    requires s.halfCloses == []
    ensures |Apply(Apply(s, HandleWrite(Wrote(1))), RunFunctor(Error(EPIPE))).halfCloses| == 2
  {
    var s1 := Apply(s, HandleWrite(Wrote(1)));
    assert s1.output == [] && |s1.halfCloses| == 1 && !s1.writing && s1.pending == [ShutdownFunctor];
  }

  // ---------- Callbacks and removal ----------

  /** The write-complete callback is queued only when every accepted byte has reached the socket. */
  lemma WriteCompleteMeansAllSent(s: State, step: Step)
    requires Inv(s) && Apply(s, step).notices == s.notices + [WriteComplete]
    ensures Apply(s, step).sent == Concat(Apply(s, step).accepted)
  {
    StepInv(s, step);
    var s' := Apply(s, step);
    assert s'.notices[|s.notices|] == WriteComplete;
    hide Concat, Events, Fresh;
    assert s'.output == [];
    assert s'.sent + [] == s'.sent;
  }

  /** The high-water callback is queued exactly when a send takes the buffer from below the mark to it or above. */
  lemma HighWaterOnCrossing(s: State, message: seq<Byte>, result: WriteResult)
    ensures var s' := SendInLoop(s, message, result);
            |s.output| < s.mark <= |s'.output| <==> s'.notices == s.notices + [HighWaterMark(|s'.output|)]
  {
    var s' := SendInLoop(s, message, result);
    assert (s.notices + [HighWaterMark(|s'.output|)])[|s.notices|] == HighWaterMark(|s'.output|);
  }

  /** When no call was overtaken, the channel can be removed, having no events, exactly when not disconnecting. */
  lemma DestroyNeedsNoEvents(mark: nat, steps: seq<Step>)
    requires Overtakings(Init(mark), steps) == 0
    ensures Enabled(Run(Init(mark), steps), Destroy) <==> !Run(Init(mark), steps).phase.Disconnecting?
  {
    CloseFindsItUp(mark, steps);
    hide Run, Overtakings;
  }
}
