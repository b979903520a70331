/**
 The output path of a TCP connection as a state machine: sends from any thread, partial writes and
 write errors, half-close after the drain, and the ways the connection goes down. The socket is a
 sink that takes a prefix of what it is offered. A call made by another thread is three steps, since
 nothing is locked: it tests `state_`, sets it, and queues a functor; the loop runs in between. A
 handler of the loop is one step: another thread can only set `state_` to disconnecting, and within a
 handler that has the effect of doing so just before or just after, except in `connectDestroyed`, whose
 own set can overwrite it (`DestroyOver`).
 */
module TcpState {
  import opened Buffers

  datatype Phase = Connecting | Connected | Disconnecting | Disconnected

  datatype Errno = EWOULDBLOCK | EPIPE | ECONNRESET | Other

  /** What `write` returns. */
  datatype WriteResult = Wrote(n: nat) | Error(errno: Errno)

  /** A functor queued in the event loop. */
  datatype Functor = SendFunctor(message: seq<Byte>) | ShutdownFunctor | ForceCloseFunctor

  /** A user callback queued in the event loop. */
  datatype Notice = WriteComplete | HighWaterMark(size: nat)

  /** History: a `shutdownWrite`, with the state and the unsent bytes at that moment. */
  datatype HalfClose = HalfClose(phase: Phase, unsent: seq<Byte>)

  datatype Call = SendCall(message: seq<Byte>) | ShutdownCall | ForceCloseCall | DelayForceCloseCall

  /** Another thread in the middle of a call: its test of `state_` passed, or it has set it as well. */
  datatype Caller = Tested(call: Call) | Leaving(call: Call)

  /**
   `reading` and `writing` are the channel's event bits; `watched`: epoll's interest set holds it, perhaps
   with an empty mask. Histories: `sent`, what the socket took;
   `accepted`, the messages `sendInLoop` did not drop; `halfCloses`; `closes`, how often `handleClose`
   ran, and with it the close callback; `dropped`, how often `connectDestroyed` found it connected.
   */
  datatype State = State(
    phase: Phase,
    reading: bool,
    writing: bool,
    watched: bool,
    output: seq<Byte>,
    pending: seq<Functor>,
    callers: map<nat, Caller>,
    mark: nat,
    notices: seq<Notice>,
    sent: seq<Byte>,
    accepted: seq<seq<Byte>>,
    halfCloses: seq<HalfClose>,
    closes: nat,
    dropped: nat)

  function Init(mark: nat): State {
    State(Connecting, false, false, false, [], [], map[], mark, [], [], [], [], 0, 0)
  }

  /** `Test`, `Set` and `Queue` are the parts of a call by thread `tid`; the rest is the loop thread. */
  datatype Step =
    | Test(tid: nat, call: Call)
    | Set(setter: nat)
    | Queue(queuer: nat)
    | Establish
    | Send(message: seq<Byte>, result: WriteResult)
    | Shutdown
    | ForceClose
    | DelayForceClose
    | RunFunctor(functorResult: WriteResult)
    | HandleWrite(writeResult: WriteResult)
    | HandleClose
    | Destroy
    | DestroyOver(overwritten: nat)

  /** A write takes at most what it is offered, and after the half-close it fails with EPIPE. */
  predicate Possible(s: State, offered: seq<Byte>, result: WriteResult) {
    && (result.Wrote? ==> result.n <= |offered|)
    && (s.halfCloses != [] ==> result == Error(EPIPE))
  }

  /** The thread's test has passed, and its call sets the state. */
  predicate MaySet(s: State, tid: nat) {
    tid in s.callers && s.callers[tid].Tested? && !s.callers[tid].call.SendCall?
  }

  /** A watched channel can see its peer hang up, whatever its mask; one without events can be removed. */
  predicate Enabled(s: State, step: Step) {
    match step
    case Test(tid, _) => tid !in s.callers
    case Set(tid) => MaySet(s, tid)
    case Queue(tid) => tid in s.callers && (s.callers[tid].Leaving? || s.callers[tid].call.SendCall?)
    case Establish => s.phase.Connecting?
    case Send(message, result) => Possible(s, message, result)
    case RunFunctor(result) =>
      s.pending != [] && (s.pending[0].SendFunctor? ==> Possible(s, s.pending[0].message, result))
    case HandleWrite(result) => Possible(s, s.output, result)
    case HandleClose => s.watched && IsUp(s)
    case Destroy => s.phase.Connected? || (!s.reading && !s.writing)
    case DestroyOver(tid) => s.phase.Connected? && MaySet(s, tid)
    case _ => true
  }

  // ---------- The operations ----------

  predicate IsUp(s: State) {
    s.phase.Connected? || s.phase.Disconnecting?
  }

  /** The test with which each call begins. */
  predicate Passes(s: State, call: Call) {
    if call.SendCall? || call.ShutdownCall? then s.phase.Connected? else IsUp(s)
  }

  /** What a call leaves for the loop: for `forceCloseWithDelay` a timer, whose expiry is a later `ForceClose`. */
  function Queued(call: Call): seq<Functor> {
    match call
    case SendCall(message) => [SendFunctor(message)]
    case ShutdownCall => [ShutdownFunctor]
    case ForceCloseCall => [ForceCloseFunctor]
    case DelayForceCloseCall => []
  }

  /**
   Whether epoll watches a channel after an update of its events: one it does not hold is added whatever
   its mask, one it holds is taken out when it has none.
   */
  predicate WatchedAfter(watched: bool, events: bool) {
    !watched || events
  }

  /** A connection that is down, or a write error that shows the peer gone, drops the message. */
  predicate Drops(s: State, result: WriteResult) {
    s.phase.Disconnected?
    || (!s.writing && s.output == [] && result.Error? && (result.errno.EPIPE? || result.errno.ECONNRESET?))
  }

  /** How many bytes of the message are written at once: none while others are waiting. */
  function WrittenNow(s: State, message: seq<Byte>, result: WriteResult): (n: nat)
    ensures n <= |message|
  {
    if !s.writing && s.output == [] && result.Wrote? && result.n <= |message| then result.n else 0
  }

  function SendInLoop(s: State, message: seq<Byte>, result: WriteResult): State {
    if Drops(s, result) then s
    else
      var n := WrittenNow(s, message, result);
      var direct := !s.writing && s.output == [] && result.Wrote?;
      var size := |s.output| + |message| - n;
      var s' := s.(sent := s.sent + message[..n], accepted := s.accepted + [message]);
      if n == |message| then
        s'.(notices := s.notices + if direct then [WriteComplete] else [])
      else
        s'.(output := s.output + message[n..], writing := true,
            watched := if s.writing then s.watched else WatchedAfter(s.watched, true),
            notices := s.notices + if |s.output| < s.mark <= size then [HighWaterMark(size)] else [])
  }

  function ShutdownInLoop(s: State): State {
    if !s.writing then s.(halfCloses := s.halfCloses + [HalfClose(s.phase, s.output)]) else s
  }

  function Close(s: State): State {
    s.(phase := Disconnected, reading := false, writing := false,
       watched := WatchedAfter(s.watched, false), closes := s.closes + 1)
  }

  function ForceCloseInLoop(s: State): State {
    if IsUp(s) then Close(s) else s
  }

  function RunFirst(s: State, result: WriteResult): State
    requires s.pending != []
  {
    var s' := s.(pending := s.pending[1..]);
    match s.pending[0]
    case SendFunctor(message) => SendInLoop(s', message, result)
    case ShutdownFunctor => ShutdownInLoop(s')
    case ForceCloseFunctor => ForceCloseInLoop(s')
  }

  function Drain(s: State, result: WriteResult): State {
    if s.writing && result.Wrote? && 0 < result.n <= |s.output| then
      var s' := s.(sent := s.sent + s.output[..result.n], output := s.output[result.n..]);
      if s'.output == [] then Drained(s') else s'
    else s
  }

  /** The buffer is empty: stop writing, and half-close if the connection is being shut down. */
  function Drained(s: State): State {
    var s' := s.(writing := false, watched := WatchedAfter(s.watched, s.reading),
                 notices := s.notices + [WriteComplete]);
    if s.phase.Disconnecting? then ShutdownInLoop(s') else s'
  }

  function DestroyConnected(s: State): State {
    if s.phase.Connected? then
      s.(phase := Disconnected, reading := false, writing := false, watched := false, dropped := s.dropped + 1)
    else s.(watched := false)
  }

  function Apply(s: State, step: Step): State {
    if !Enabled(s, step) then s
    else
      match step
      case Test(tid, call) => if Passes(s, call) then s.(callers := s.callers[tid := Tested(call)]) else s
      case Set(tid) => s.(phase := Disconnecting, callers := s.callers[tid := Leaving(s.callers[tid].call)])
      case Queue(tid) =>
        s.(callers := s.callers - {tid}, pending := s.pending + Queued(s.callers[tid].call))
      case Establish => s.(phase := Connected, reading := true, watched := WatchedAfter(s.watched, true))
      case Send(message, result) => if s.phase.Connected? then SendInLoop(s, message, result) else s
      case Shutdown => if s.phase.Connected? then ShutdownInLoop(s.(phase := Disconnecting)) else s
      case ForceClose =>
        if IsUp(s) then s.(phase := Disconnecting, pending := s.pending + [ForceCloseFunctor]) else s
      case DelayForceClose => if IsUp(s) then s.(phase := Disconnecting) else s
      case RunFunctor(result) => RunFirst(s, result)
      case HandleWrite(result) => Drain(s, result)
      case HandleClose => Close(s)
      case Destroy => DestroyConnected(s)
      case DestroyOver(tid) => DestroyConnected(s).(callers := s.callers[tid := Leaving(s.callers[tid].call)])
  }

  function Run(s: State, steps: seq<Step>): State
    decreases |steps|
  {
    if steps == [] then s else Run(Apply(s, steps[0]), steps[1..])
  }

  lemma {:induction false} RunConcat(s: State, a: seq<Step>, b: seq<Step>)
    ensures Run(s, a + b) == Run(Run(s, a), b)
    decreases |a|
  {
    if a == [] {
      assert a + b == b;
    } else {
      assert (a + b)[1..] == a[1..] + b;
      RunConcat(Apply(s, a[0]), a[1..], b);
    }
  }

  lemma RunOne(s: State, step: Step)
    ensures Run(s, [step]) == Apply(s, step)
  {
    assert Run(s, [step]) == Run(Apply(s, step), []);
  }

  // ---------- A close between the two halves of a call ----------

  /** Another thread sets `state_` by a test that a close has overtaken: the connection looks up again. */
  predicate Overtaken(s: State, step: Step) {
    step.Set? && Enabled(s, step) && s.phase.Disconnected?
  }

  /** The same, over bytes that were not sent. */
  predicate Strands(s: State, step: Step) {
    Overtaken(s, step) && s.output != []
  }

  /** How often that happens in a run. */
  function Overtakings(s: State, steps: seq<Step>): nat
    decreases |steps|
  {
    if steps == [] then 0
    else (if Overtaken(s, steps[0]) then 1 else 0) + Overtakings(Apply(s, steps[0]), steps[1..])
  }

  predicate RunStrands(s: State, steps: seq<Step>)
    decreases |steps|
  {
    steps != [] && (Strands(s, steps[0]) || RunStrands(Apply(s, steps[0]), steps[1..]))
  }

  // ---------- Invariants ----------

  function Concat(messages: seq<seq<Byte>>): seq<Byte> {
    if messages == [] then [] else Concat(messages[..|messages| - 1]) + messages[|messages| - 1]
  }

  /** Every byte accepted is in the socket or in the buffer, in order. */
  predicate Preserved(s: State) {
    s.sent + s.output == Concat(s.accepted)
  }

  /** The calls of `shutdown` that have still to set the state or queue their functor. */
  function ShutdownCallers(callers: map<nat, Caller>): set<nat> {
    set tid <- callers | callers[tid].call.ShutdownCall?
  }

  function ShutdownsQueued(fs: seq<Functor>): nat {
    if fs == [] then 0 else (if fs[0].ShutdownFunctor? then 1 else 0) + ShutdownsQueued(fs[1..])
  }

  /** The calls of `shutdown` under way: between their test and the end of their functor. */
  function UnderWay(s: State): nat {
    |ShutdownCallers(s.callers)| + ShutdownsQueued(s.pending)
  }

  /**
   The channel has events only while the connection is up and epoll watches it, and reads until the
   connection went down; then it is not watched, at least until the connection is set up again.
   */
  predicate Events(s: State) {
    && (s.reading || s.writing ==> IsUp(s) && s.watched)
    && (s.phase.Connecting? || (s.phase.Disconnected? && s.closes + s.dropped == 1) ==> !s.watched)
    && (s.reading <==> IsUp(s) && s.closes + s.dropped == 0)
    && (s.phase.Disconnected? ==> s.closes + s.dropped > 0)
  }

  /** Before anything was set to disconnecting nothing is closed, half-closed or about to be. */
  predicate Fresh(s: State) {
    && (s.phase.Connecting? ==> s.output == [] && s.pending == [] && s.callers == map[])
    && (s.phase.Connecting? || s.phase.Connected? ==>
          && s.closes + s.dropped == 0 && s.halfCloses == []
          && ShutdownsQueued(s.pending) == 0
          && (forall tid <- s.callers :: s.callers[tid].Tested?))
  }

  /** Holds in every run. */
  predicate Inv(s: State) {
    Events(s) && Fresh(s) && Preserved(s)
  }

  /** While the connection is up the channel writes exactly when there is something to write. */
  predicate Writes(s: State) {
    IsUp(s) ==> (s.writing <==> s.output != [])
  }

  /** Every half-close of a connection that was not down came after the last byte. */
  predicate HalfClosesLast(s: State) {
    && (IsUp(s) && s.halfCloses != [] ==> s.output == [])
    && (forall h <- s.halfCloses :: h.unsent == [] || h.phase.Disconnected?)
  }

  /** Holds until a call by another thread is overtaken over unsent bytes. */
  predicate Tidy(s: State) {
    Writes(s) && HalfClosesLast(s)
  }

  lemma ShutdownsAppend(fs: seq<Functor>, f: Functor)
    ensures ShutdownsQueued(fs + [f]) == ShutdownsQueued(fs) + if f.ShutdownFunctor? then 1 else 0
  {
    if fs != [] {
      assert (fs + [f])[1..] == fs[1..] + [f];
      ShutdownsAppend(fs[1..], f);
    }
  }

  lemma QueuedShutdowns(fs: seq<Functor>, call: Call)
    ensures ShutdownsQueued(fs + Queued(call)) == ShutdownsQueued(fs) + if call.ShutdownCall? then 1 else 0
  {
    assert fs + [] == fs;
    if !call.DelayForceCloseCall? {
      ShutdownsAppend(fs, Queued(call)[0]);
    }
  }

  lemma SendPreserves(s: State, message: seq<Byte>, result: WriteResult)
    requires Preserved(s)
    ensures Preserved(SendInLoop(s, message, result))
  {
    if !Drops(s, result) {
      var n := WrittenNow(s, message, result);
      assert (s.accepted + [message])[..|s.accepted|] == s.accepted;
      assert Concat(s.accepted + [message]) == Concat(s.accepted) + message;
      hide Concat, Drops;
      SplitMessage(s.sent, s.output, message, n);
      assert n == |message| ==> message[n..] == [] && s.output + [] == s.output;
    }
  }

  lemma SplitMessage(sent: seq<Byte>, output: seq<Byte>, message: seq<Byte>, n: nat)
    requires n <= |message| && (n > 0 ==> output == [])
    ensures (sent + message[..n]) + (output + message[n..]) == sent + output + message
  {
    assert message[..n] + message[n..] == message;
    assert n == 0 ==> message[n..] == message && message[..n] == [] && sent + [] == sent;
  }

  lemma DrainPreserves(s: State, result: WriteResult)
    requires Preserved(s)
    ensures Preserved(Drain(s, result))
  {
    hide Concat;
    if s.writing && result.Wrote? && 0 < result.n <= |s.output| {
      assert s.output[..result.n] + s.output[result.n..] == s.output;
      assert s.sent + s.output[..result.n] + s.output[result.n..]
          == s.sent + (s.output[..result.n] + s.output[result.n..]);
    }
  }

  lemma StepPreserves(s: State, step: Step)
    requires Preserved(s)
    ensures Preserved(Apply(s, step))
  {
    if Enabled(s, step) {
      match step
      case Send(message, result) => SendPreserves(s, message, result);
      case RunFunctor(result) =>
        if s.pending[0].SendFunctor? {
          SendPreserves(s.(pending := s.pending[1..]), s.pending[0].message, result);
        }
      case HandleWrite(result) => DrainPreserves(s, result);
      case _ =>
    }
  }

  lemma StepEvents(s: State, step: Step)
    requires Events(s) && Fresh(s)
    ensures Events(Apply(s, step))
  {
    hide ShutdownsQueued;
  }

  lemma StepFresh(s: State, step: Step)
    requires Events(s) && Fresh(s)
    ensures Fresh(Apply(s, step))
  {
    hide ShutdownsQueued, Queued;
    FirstQueued(s.pending);
    if Enabled(s, step) && step.Queue? {
      QueuedShutdowns(s.pending, s.callers[step.queuer].call);
    }
  }

  lemma FirstQueued(fs: seq<Functor>)
    ensures ShutdownsQueued([]) == 0
    ensures fs != [] ==> ShutdownsQueued(fs[1..]) <= ShutdownsQueued(fs)
    ensures fs != [] && fs[0].ShutdownFunctor? ==> ShutdownsQueued(fs) > 0
  {
  }

  lemma StepInv(s: State, step: Step)
    requires Inv(s)
    ensures Inv(Apply(s, step))
  {
    StepPreserves(s, step);
    StepEvents(s, step);
    StepFresh(s, step);
    hide Preserved, Events, Fresh, Apply;
  }

  lemma {:induction false} RunInv(s: State, steps: seq<Step>)
    requires Inv(s)
    ensures Inv(Run(s, steps))
    decreases |steps|
  {
    if steps != [] {
      StepInv(s, steps[0]);
      RunInv(Apply(s, steps[0]), steps[1..]);
    }
  }

  lemma InitInv(mark: nat)
    ensures Inv(Init(mark)) && Tidy(Init(mark)) && UnderWay(Init(mark)) == 0
  {
  }

  lemma StepWrites(s: State, step: Step)
    requires Inv(s) && Writes(s) && !Strands(s, step)
    ensures Writes(Apply(s, step))
  {
    hide Preserved, ShutdownsQueued;
  }

  lemma StepHalfCloses(s: State, step: Step)
    requires Inv(s) && Tidy(s) && !Strands(s, step)
    ensures HalfClosesLast(Apply(s, step))
  {
    hide Preserved;
    assert s.pending != [] && s.pending[0].ShutdownFunctor? ==> ShutdownsQueued(s.pending) > 0;
    hide ShutdownsQueued;
  }

  lemma StepTidy(s: State, step: Step)
    requires Inv(s) && Tidy(s) && !Strands(s, step)
    ensures Tidy(Apply(s, step))
  {
    StepWrites(s, step);
    StepHalfCloses(s, step);
    hide Inv, Writes, HalfClosesLast, Apply;
  }

  lemma {:induction false} RunTidy(s: State, steps: seq<Step>)
    requires Inv(s) && Tidy(s) && !RunStrands(s, steps)
    ensures Tidy(Run(s, steps))
    decreases |steps|
  {
    if steps != [] {
      StepInv(s, steps[0]);
      StepTidy(s, steps[0]);
      RunTidy(Apply(s, steps[0]), steps[1..]);
    }
  }
}
