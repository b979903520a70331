/** What becomes of the messages given to `send`, over whole runs: each in order, and none lost on the way. */
module TcpMessages {
  import opened Buffers
  import opened TcpState
  import opened TcpRuns

  // ---------- Calls by other threads ----------

  /** The calls that passed their test and have not queued their functor, with what they were asked. */
  function Begun(s: State, steps: seq<Step>): map<nat, Call>
    decreases |steps|
  {
    if steps == [] then map[]
    else
      var before, last := steps[..|steps| - 1], steps[|steps| - 1];
      var begun, now := Begun(s, before), Run(s, before);
      match last
      case Test(tid, call) =>
        if tid !in begun
           && (now.phase == Connected
               || (now.phase == Disconnecting && (call.ForceCloseCall? || call.DelayForceCloseCall?)))
        then begun[tid := call] else begun
      case Queue(tid) => if Enabled(now, last) then begun - {tid} else begun
      case _ => begun
  }

  predicate SameCalls(callers: map<nat, Caller>, calls: map<nat, Call>) {
    callers.Keys == calls.Keys && forall tid <- calls :: callers[tid].call == calls[tid]
  }

  /** In every run the calls under way are those begun, each with what it was asked. */
  lemma {:induction false} CallsAsBegun(mark: nat, steps: seq<Step>)
    ensures SameCalls(Run(Init(mark), steps).callers, Begun(Init(mark), steps))
    decreases |steps|
  {
    if steps != [] {
      var before, last := steps[..|steps| - 1], steps[|steps| - 1];
      var now := Run(Init(mark), before);
      CallsAsBegun(mark, before);
      assert steps == before + [last];
      RunConcat(Init(mark), before, [last]);
      RunOne(now, last);
      hide Run;
      StepCalls(now, last, Begun(Init(mark), before));
    }
  }

  lemma StepCalls(s: State, step: Step, begun: map<nat, Call>)
    requires SameCalls(s.callers, begun)
    ensures match step
            case Test(tid, call) =>
              SameCalls(Apply(s, step).callers,
                        if tid !in begun
                           && (s.phase == Connected
                               || (s.phase == Disconnecting && (call.ForceCloseCall? || call.DelayForceCloseCall?)))
                        then begun[tid := call] else begun)
            case Queue(tid) => SameCalls(Apply(s, step).callers, if Enabled(s, step) then begun - {tid} else begun)
            case _ => SameCalls(Apply(s, step).callers, begun)
  {
  }

  // ---------- The queue of functors ----------

  /** What a step queues in the loop: the functor of its call, or of `forceClose` in the loop thread. */
  function QueuedBy(s: State, step: Step): seq<Functor> {
    if !Enabled(s, step) then []
    else
      match step
      case Queue(tid) =>
        (match s.callers[tid].call
         case SendCall(message) => [SendFunctor(message)]
         case ShutdownCall => [ShutdownFunctor]
         case ForceCloseCall => [ForceCloseFunctor]
         case DelayForceCloseCall => [])
      case ForceClose => if s.phase == Connected || s.phase == Disconnecting then [ForceCloseFunctor] else []
      case _ => []
  }

  function QueuedIn(s: State, steps: seq<Step>): seq<Functor>
    decreases |steps|
  {
    if steps == [] then [] else QueuedBy(s, steps[0]) + QueuedIn(Apply(s, steps[0]), steps[1..])
  }

  /** The functors that the loop runs. */
  function RunIn(s: State, steps: seq<Step>): seq<Functor>
    decreases |steps|
  {
    if steps == [] then []
    else
      (if steps[0].RunFunctor? && Enabled(s, steps[0]) then [s.pending[0]] else [])
      + RunIn(Apply(s, steps[0]), steps[1..])
  }

  /** The loop runs the functors in the order in which they were queued, each once. */
  lemma {:induction false} FunctorsInOrder(s: State, steps: seq<Step>)
    ensures s.pending + QueuedIn(s, steps) == RunIn(s, steps) + Run(s, steps).pending
    decreases |steps|
  {
    if steps == [] {
      assert s.pending + [] == [] + s.pending;
    } else {
      var s1, rest := Apply(s, steps[0]), steps[1..];
      StepQueues(s, steps[0]);
      hide Apply, Enabled, QueuedBy;
      FunctorsInOrder(s1, rest);
      var ran := if steps[0].RunFunctor? && Enabled(s, steps[0]) then [s.pending[0]] else [];
      Rejoin(s.pending, QueuedBy(s, steps[0]), QueuedIn(s1, rest), ran, s1.pending,
             RunIn(s1, rest), Run(s1, rest).pending);
    }
  }

  lemma Rejoin<T>(before: seq<T>, queued: seq<T>, later: seq<T>, ran: seq<T>, after: seq<T>, laterRan: seq<T>,
                  left: seq<T>)
    requires before + queued == ran + after && after + later == laterRan + left
    ensures before + (queued + later) == ran + laterRan + left
  {
    assert before + (queued + later) == before + queued + later;
    assert ran + after + later == ran + (after + later);
  }

  lemma StepQueues(s: State, step: Step)
    ensures var ran := if step.RunFunctor? && Enabled(s, step) then [s.pending[0]] else [];
            s.pending + QueuedBy(s, step) == ran + Apply(s, step).pending
  {
    if step.RunFunctor? && Enabled(s, step) {
      assert [s.pending[0]] + s.pending[1..] == s.pending;
    } else {
      assert s.pending + [] == [] + s.pending;
    }
  }

  // ---------- Messages ----------

  function Messages(fs: seq<Functor>): seq<seq<Byte>> {
    if fs == [] then [] else (if fs[0].SendFunctor? then [fs[0].message] else []) + Messages(fs[1..])
  }

  lemma {:induction false} MessagesConcat(a: seq<Functor>, b: seq<Functor>)
    ensures Messages(a + b) == Messages(a) + Messages(b)
  {
    if a == [] {
      assert a + b == b;
    } else {
      assert (a + b)[0] == a[0] && (a + b)[1..] == a[1..] + b;
      MessagesConcat(a[1..], b);
    }
  }

  /** The messages of the sends by other threads, as their calls queue them. */
  function MessagesQueued(s: State, steps: seq<Step>): seq<seq<Byte>>
    decreases |steps|
  {
    if steps == [] then []
    else
      var step := steps[0];
      (if step.Queue? && Enabled(s, step) && s.callers[step.queuer].call.SendCall? then
         [s.callers[step.queuer].call.message]
       else [])
      + MessagesQueued(Apply(s, step), steps[1..])
  }

  /**
   The messages that other threads sent reach `sendInLoop` in order: those that functors handed to it, and
   then those whose functors are still queued, are those queued in the run.
   */
  lemma MessagesInOrder(mark: nat, steps: seq<Step>)
    ensures MessagesQueued(Init(mark), steps)
         == Messages(RunIn(Init(mark), steps)) + Messages(Run(Init(mark), steps).pending)
  {
    var s := Init(mark);
    FunctorsInOrder(s, steps);
    QueuedMessages(s, steps);
    assert [] + QueuedIn(s, steps) == QueuedIn(s, steps);
    MessagesConcat(RunIn(s, steps), Run(s, steps).pending);
  }

  lemma {:induction false} QueuedMessages(s: State, steps: seq<Step>)
    ensures Messages(QueuedIn(s, steps)) == MessagesQueued(s, steps)
    decreases |steps|
  {
    if steps != [] {
      QueuedMessages(Apply(s, steps[0]), steps[1..]);
      OneMessage(s, steps[0]);
      hide Apply, Enabled, QueuedBy;
      MessagesConcat(QueuedBy(s, steps[0]), QueuedIn(Apply(s, steps[0]), steps[1..]));
    }
  }

  lemma OneMessage(s: State, step: Step)
    ensures Messages(QueuedBy(s, step))
         == if step.Queue? && Enabled(s, step) && s.callers[step.queuer].call.SendCall? then
              [s.callers[step.queuer].call.message]
            else []
  {
    hide Enabled;
    var fs := QueuedBy(s, step);
    assert |fs| == 1 ==> fs[1..] == [];
  }

  // ---------- What is accepted ----------

  /** The message that a step hands to `sendInLoop`, if any, and what its write returns. */
  function HandedBy(s: State, step: Step): (handed: seq<(seq<Byte>, WriteResult)>)
    ensures |handed| <= 1
  {
    if !Enabled(s, step) then []
    else if step.Send? && s.phase == Connected then [(step.message, step.result)]
    else if step.RunFunctor? && s.pending[0].SendFunctor? then [(s.pending[0].message, step.functorResult)]
    else []
  }

  /** Refused: on a connection that is down, or when the write shows that the peer is gone. */
  predicate Refused(s: State, result: WriteResult) {
    || s.phase == Disconnected
    || (!s.writing && s.output == [] && (result == Error(EPIPE) || result == Error(ECONNRESET)))
  }

  function AcceptedBy(s: State, step: Step): seq<seq<Byte>> {
    var handed := HandedBy(s, step);
    if handed != [] && !Refused(s, handed[0].1) then [handed[0].0] else []
  }

  /** The messages accepted in a run: those handed to `sendInLoop` and not refused at that moment. */
  function AcceptedIn(s: State, steps: seq<Step>): seq<seq<Byte>>
    decreases |steps|
  {
    if steps == [] then [] else AcceptedBy(s, steps[0]) + AcceptedIn(Apply(s, steps[0]), steps[1..])
  }

  /** How many bytes the socket takes at a step: writes of the buffer, and direct writes when nothing waits. */
  function TakenBy(s: State, step: Step): nat {
    if !Enabled(s, step) then 0
    else if step.HandleWrite? then (if s.writing && step.writeResult.Wrote? then step.writeResult.n else 0)
    else
      var handed := HandedBy(s, step);
      if handed != [] && s.phase != Disconnected && !s.writing && s.output == [] && handed[0].1.Wrote? then
        handed[0].1.n
      else 0
  }

  function TakenIn(s: State, steps: seq<Step>): nat
    decreases |steps|
  {
    if steps == [] then 0 else TakenBy(s, steps[0]) + TakenIn(Apply(s, steps[0]), steps[1..])
  }

  lemma SendTakes(s: State, message: seq<Byte>, result: WriteResult)
    requires Possible(s, message, result)
    ensures var s' := SendInLoop(s, message, result);
            && s'.accepted == s.accepted + (if Refused(s, result) then [] else [message])
            && |s'.sent| == |s.sent| + if s.phase != Disconnected && !s.writing && s.output == [] && result.Wrote?
                                       then result.n else 0
  {
  }

  lemma SameMoment(s: State, s': State, message: seq<Byte>, result: WriteResult)
    requires s'.phase == s.phase && s'.writing == s.writing && s'.output == s.output && s'.halfCloses == s.halfCloses
    ensures Possible(s', message, result) <==> Possible(s, message, result)
    ensures Refused(s', result) <==> Refused(s, result)
  {
  }

  lemma DrainTakes(s: State, result: WriteResult)
    requires Possible(s, s.output, result)
    ensures var s' := Drain(s, result);
            s'.accepted == s.accepted && |s'.sent| == |s.sent| + if s.writing && result.Wrote? then result.n else 0
  {
  }

  lemma StepTakes(s: State, step: Step)
    ensures Apply(s, step).accepted == s.accepted + AcceptedBy(s, step)
    ensures |Apply(s, step).sent| == |s.sent| + TakenBy(s, step)
  {
    hide SendInLoop, Refused, Drain, Possible;
    match step
    case Send(message, result) =>
      if Enabled(s, step) {
        SendTakes(s, message, result);
      }
    case RunFunctor(result) =>
      if Enabled(s, step) && s.pending[0].SendFunctor? {
        var s' := s.(pending := s.pending[1..]);
        SameMoment(s, s', s.pending[0].message, result);
        SendTakes(s', s.pending[0].message, result);
      }
    case HandleWrite(result) =>
      if Enabled(s, step) {
        DrainTakes(s, result);
      }
    case _ =>
  }

  lemma {:induction false} RunAccepts(s: State, steps: seq<Step>)
    ensures Run(s, steps).accepted == s.accepted + AcceptedIn(s, steps)
    decreases |steps|
  {
    if steps != [] {
      var s1, rest := Apply(s, steps[0]), steps[1..];
      StepTakes(s, steps[0]);
      hide Apply, AcceptedBy, TakenBy;
      RunAccepts(s1, rest);
      Regroup(s.accepted, AcceptedBy(s, steps[0]), AcceptedIn(s1, rest));
    }
  }

  lemma Regroup<T>(a: seq<T>, b: seq<T>, c: seq<T>)
    ensures a + b + c == a + (b + c)
  {
  }

  lemma {:induction false} RunTakes(s: State, steps: seq<Step>)
    ensures |Run(s, steps).sent| == |s.sent| + TakenIn(s, steps)
    decreases |steps|
  {
    if steps != [] {
      StepTakes(s, steps[0]);
      hide Apply, AcceptedBy, TakenBy;
      RunTakes(Apply(s, steps[0]), steps[1..]);
    }
  }

  /**
   In every run the socket has as many bytes as its writes returned, and they are the first of the
   messages handed to `sendInLoop` and not refused; the buffer holds the others.
   */
  lemma SentExactly(mark: nat, steps: seq<Step>)
    ensures var s := Run(Init(mark), steps);
            var stream, n := Concat(AcceptedIn(Init(mark), steps)), TakenIn(Init(mark), steps);
            n <= |stream| && s.sent == stream[..n] && s.output == stream[n..]
  {
    StreamPreserved(mark, steps);
    RunAccepts(Init(mark), steps);
    RunTakes(Init(mark), steps);
    hide Run, AcceptedIn, TakenIn, Concat;
    var s := Run(Init(mark), steps);
    assert [] + AcceptedIn(Init(mark), steps) == AcceptedIn(Init(mark), steps);
    assert (s.sent + s.output)[..|s.sent|] == s.sent && (s.sent + s.output)[|s.sent|..] == s.output;
  }

  // ---------- Nothing is lost on the way ----------

  /** Nothing handed to `sendInLoop` is refused. */
  predicate NoneRefused(s: State, steps: seq<Step>)
    decreases |steps|
  {
    steps != [] ==>
      && (HandedBy(s, steps[0]) != [] ==> !Refused(s, HandedBy(s, steps[0])[0].1))
      && NoneRefused(Apply(s, steps[0]), steps[1..])
  }

  /** Only other threads send. */
  predicate NoneInLoop(steps: seq<Step>) {
    forall step <- steps :: !step.Send?
  }

  /**
   In every run in which nothing is refused, the bytes of the messages other threads sent are in the socket,
   in the buffer and in the functors still queued, in that order.
   */
  lemma NothingLost(mark: nat, steps: seq<Step>)
    requires NoneRefused(Init(mark), steps) && NoneInLoop(steps)
    ensures var s := Run(Init(mark), steps);
            s.sent + s.output + Concat(Messages(s.pending)) == Concat(MessagesQueued(Init(mark), steps))
  {
    MessagesInOrder(mark, steps);
    StreamPreserved(mark, steps);
    RunAccepts(Init(mark), steps);
    AcceptedAsRun(Init(mark), steps);
    var s := Run(Init(mark), steps);
    hide Run, AcceptedIn, Concat, RunIn, Messages, MessagesQueued, NoneRefused;
    assert [] + AcceptedIn(Init(mark), steps) == AcceptedIn(Init(mark), steps);
    ConcatAppend(Messages(RunIn(Init(mark), steps)), Messages(s.pending));
  }

  lemma {:induction false} AcceptedAsRun(s: State, steps: seq<Step>)
    requires NoneRefused(s, steps) && NoneInLoop(steps)
    ensures AcceptedIn(s, steps) == Messages(RunIn(s, steps))
    decreases |steps|
  {
    if steps != [] {
      AcceptedAsRun(Apply(s, steps[0]), steps[1..]);
      assert steps[0] in steps;
      var ran := if steps[0].RunFunctor? && Enabled(s, steps[0]) then [s.pending[0]] else [];
      hide Apply, Refused;
      MessagesConcat(ran, RunIn(Apply(s, steps[0]), steps[1..]));
      assert ran != [] ==> ran[1..] == [];
    }
  }

  lemma {:induction false} ConcatAppend(a: seq<seq<Byte>>, b: seq<seq<Byte>>)
    ensures Concat(a + b) == Concat(a) + Concat(b)
    decreases |b|
  {
    if b == [] {
      assert a + b == a;
    } else {
      var front, last := b[..|b| - 1], b[|b| - 1];
      assert (a + b)[..|a + b| - 1] == a + front;
      ConcatAppend(a, front);
      assert (a + b)[|a + b| - 1] == last;
      assert Concat(a + b) == Concat(a + front) + last;
      assert Concat(b) == Concat(front) + last;
      hide Concat;
      assert (Concat(a) + Concat(front)) + last == Concat(a) + (Concat(front) + last);
    }
  }

  // ---------- Shutting down ----------

  /**
   In every run, `shutdown` called in the loop thread of a connected connection half-closes at once if and
   only if nothing is waiting in the buffer.
   */
  lemma ShutdownAtOnceIff(mark: nat, steps: seq<Step>)
    requires Run(Init(mark), steps).phase == Connected
    ensures var s := Run(Init(mark), steps);
            && Run(Init(mark), steps + [Shutdown]).phase == Disconnecting
            && Run(Init(mark), steps + [Shutdown]).halfCloses
               == if s.output == [] then [HalfClose(Disconnecting, [])] else []
  {
    var s := Run(Init(mark), steps);
    InitInv(mark);
    RunInv(Init(mark), steps);
    RunDowns(Init(mark), steps);
    PromisedAtEnd(mark, steps);
    RunConcat(Init(mark), steps, [Shutdown]);
    RunOne(s, Shutdown);
    hide Run, Overtakings;
  }

  lemma PromisedAtEnd(mark: nat, steps: seq<Step>)
    requires Overtakings(Init(mark), steps) == 0
    ensures Tidy(Run(Init(mark), steps))
  {
    AsPromisedIff(mark, steps);
    assert steps[..|steps|] == steps;
    hide Run, Overtakings, Tidy;
    assert AsPromised(Run(Init(mark), steps[..|steps|]));
  }
}
