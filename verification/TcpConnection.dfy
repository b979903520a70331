/**
 `muduo::net::TcpConnection`, output side: the handlers over a real `Buffer`, each proved to be the
 step of `TcpState` that it names. The result of a write is a parameter.
 */
module TcpConnections {
  import opened Buffers
  import opened TcpState

  /** `sendInLoop` by whether it writes directly, and whether anything remains. */
  lemma SendCases(s: State, data: seq<Byte>, result: WriteResult)
    requires Possible(s, data, result) && !s.phase.Disconnected?
    ensures var direct := !s.writing && s.output == [];
            var n := if direct && result.Wrote? then result.n else 0;
            var s' := SendInLoop(s, data, result);
            if direct && result.Error? && (result.errno.EPIPE? || result.errno.ECONNRESET?) then s' == s
            else
              && s'.phase == s.phase && s'.reading == s.reading && s'.pending == s.pending && s'.mark == s.mark
              && s'.halfCloses == s.halfCloses && s'.callers == s.callers
              && s'.watched == (s.watched || (n < |data| && !s.writing))
              && s'.closes == s.closes && s'.dropped == s.dropped
              && s'.sent == s.sent + data[..n] && s'.accepted == s.accepted + [data]
              && s'.output == s.output + data[n..] && s'.writing == (s.writing || n < |data|)
              && (n == |data| && direct && result.Wrote? ==> s'.notices == s.notices + [WriteComplete])
              && (n == |data| && !(direct && result.Wrote?) ==> s'.notices == s.notices)
              && (n < |data| ==> s'.notices == s.notices + if |s.output| < s.mark <= |s'.output|
                                                           then [HighWaterMark(|s'.output|)] else [])
  {
  }

  /** `handleWrite` by whether it writes, and whether that empties the buffer. */
  lemma WriteCases(s: State, result: WriteResult)
    requires Enabled(s, HandleWrite(result))
    ensures result.Wrote? ==> result.n <= |s.output|
    ensures var s' := Apply(s, HandleWrite(result));
            if !s.writing || result.Error? || result.n == 0 then s' == s
            else
              var rest := s.(sent := s.sent + s.output[..result.n], output := s.output[result.n..]);
              s' == if result.n == |s.output| then Drained(rest) else rest
  {
  }

  class TcpConnection {
    var state: Phase
    var channelReading: bool
    var channelWriting: bool
    var channelWatched: bool
    const outputBuffer: Buffer
    const highWaterMark: nat
    var pending: seq<Functor>
    var callers: map<nat, Caller>
    var notices: seq<Notice>
    var sent: seq<Byte>
    var accepted: seq<seq<Byte>>
    var halfCloses: seq<HalfClose>
    var closes: nat
    var dropped: nat

    ghost function Model(): State
      requires outputBuffer.Valid()
      reads this, outputBuffer, outputBuffer.buffer
    {
      State(state, channelReading, channelWriting, channelWatched, outputBuffer.Contents(), pending, callers,
            highWaterMark, notices, sent, accepted, halfCloses, closes, dropped)
    }

    ghost predicate Valid()
      reads this, outputBuffer, outputBuffer.buffer
    {
      outputBuffer.Valid() && Inv(Model())
    }

    constructor (highWaterMark: nat)
      ensures Valid() && fresh(outputBuffer) && fresh(outputBuffer.buffer) && Model() == Init(highWaterMark)
      ensures state == Connecting && !channelReading && !channelWriting && !channelWatched
      ensures outputBuffer.Contents() == [] && this.highWaterMark == highWaterMark && pending == []
    {
      state, channelReading, channelWriting, channelWatched := Connecting, false, false, false;
      outputBuffer := new Buffer(K_INITIAL_SIZE);
      this.highWaterMark := highWaterMark;
      pending, callers, notices, sent, accepted := [], map[], [], [], [];
      halfCloses, closes, dropped := [], 0, 0;
      new;
      InitInv(highWaterMark);
    }

    method ConnectEstablished()
      requires Valid() && state.Connecting?
      modifies this`state, this`channelReading, this`channelWatched
      ensures Valid() && Model() == Apply(old(Model()), Establish)
      ensures state == Connected && channelReading && channelWatched
    {
      StepInv(Model(), Establish);
      state := Connected;
      channelReading := true;
      UpdateChannel();
    }

    /** `Channel::update`: what epoll makes of the channel's events. */
    method UpdateChannel()
      modifies this`channelWatched
      ensures channelWatched == (!old(channelWatched) || channelReading || channelWriting)
    {
      channelWatched := !channelWatched || channelReading || channelWriting;
    }

    /** `sendInLoop`: write at once when nothing is waiting, buffer the rest. */
    method SendInLoop(data: seq<Byte>, result: WriteResult)
      requires outputBuffer.Valid() && Possible(Model(), data, result)
      modifies this`sent, this`accepted, this`notices, this`channelWriting, this`channelWatched
      modifies outputBuffer, outputBuffer.buffer
      ensures outputBuffer.Valid() && (outputBuffer.buffer == old(outputBuffer.buffer) || fresh(outputBuffer.buffer))
      ensures Model() == TcpState.SendInLoop(old(Model()), data, result)
      ensures var direct := !old(channelWriting) && old(outputBuffer.Contents()) == [];
              var n := if direct && result.Wrote? then result.n else 0;
              if state == Disconnected || (direct && (result == Error(EPIPE) || result == Error(ECONNRESET))) then
                Model() == old(Model())
              else
                && accepted == old(accepted) + [data] && sent == old(sent) + data[..n]
                && outputBuffer.Contents() == old(outputBuffer.Contents()) + data[n..]
                && channelWriting == (old(channelWriting) || n < |data|)
                && channelWatched == (old(channelWatched) || (n < |data| && !old(channelWriting)))
                && notices == old(notices) + if n < |data| then
                                               HighWater(|old(outputBuffer.Contents())|, |outputBuffer.Contents()|)
                                             else if direct && result.Wrote? then [WriteComplete] else []
    {
      hide Inv;
      var nwrote, remaining, faultError := 0, |data|, false;
      if state.Disconnected? {
        return;
      }
      SendCases(Model(), data, result);
      hide TcpState.SendInLoop, Possible;
      assert outputBuffer.ReadableBytes() == |outputBuffer.Contents()|;
      if !channelWriting && outputBuffer.ReadableBytes() == 0 {
        nwrote, remaining, faultError := WriteDirectly(data, result);
      }
      assert remaining <= |data|;
      if !faultError {
        Accept(data, nwrote);
        assert outputBuffer.ReadableBytes() == |outputBuffer.Contents()|;
      }
    }

    /** The notice due when the buffer grows to or past the mark. */
    function HighWater(before: nat, after: nat): (due: seq<Notice>)
      reads this
      ensures before < highWaterMark <= after ==> due == [HighWaterMark(after)]
      ensures !(before < highWaterMark <= after) ==> due == []
    {
      if before < highWaterMark <= after then [HighWaterMark(after)] else []
    }

    /** The end of `sendInLoop`: of an accepted message what was not written is buffered. */
    method Accept(data: seq<Byte>, nwrote: nat)
      requires outputBuffer.Valid() && nwrote <= |data|
      modifies this`sent, this`accepted, this`notices, this`channelWriting, this`channelWatched
      modifies outputBuffer, outputBuffer.buffer
      ensures outputBuffer.Valid() && (outputBuffer.buffer == old(outputBuffer.buffer) || fresh(outputBuffer.buffer))
      ensures sent == old(sent) + data[..nwrote] && accepted == old(accepted) + [data]
      ensures outputBuffer.Contents() == old(outputBuffer.Contents()) + data[nwrote..]
      ensures channelWriting == (old(channelWriting) || nwrote < |data|)
      ensures channelWatched == (old(channelWatched) || (nwrote < |data| && !old(channelWriting)))
      ensures nwrote == |data| ==> notices == old(notices)
      ensures nwrote < |data| ==>
                notices == old(notices)
                         + (if old(outputBuffer.ReadableBytes()) < highWaterMark <= outputBuffer.ReadableBytes()
                            then [HighWaterMark(outputBuffer.ReadableBytes())] else [])
    {
      sent := sent + data[..nwrote];
      accepted := accepted + [data];
      if nwrote < |data| {
        Enqueue(data[nwrote..]);
      } else {
        assert data[nwrote..] == [];
      }
    }

    /** The part of `sendInLoop` that writes to the socket. */
    method WriteDirectly(data: seq<Byte>, result: WriteResult) returns (nwrote: nat, remaining: nat, faultError: bool)
      requires result.Wrote? ==> result.n <= |data|
      modifies this`notices
      ensures nwrote + remaining == |data| && nwrote == if result.Wrote? then result.n else 0
      ensures faultError <==> result.Error? && (result.errno.EPIPE? || result.errno.ECONNRESET?)
      ensures result.Wrote? && remaining == 0 ==> notices == old(notices) + [WriteComplete]
      ensures !(result.Wrote? && remaining == 0) ==> notices == old(notices)
    {
      nwrote, remaining, faultError := 0, |data|, false;
      match result
      case Wrote(n) =>
        nwrote := n;
        remaining := |data| - n;
        if remaining == 0 {
          notices := notices + [WriteComplete];
        }
      case Error(errno) =>
        if errno != EWOULDBLOCK {
          if errno == EPIPE || errno == ECONNRESET {
            faultError := true;
          }
        }
    }

    /** The part of `sendInLoop` that buffers what was not written. */
    method Enqueue(rest: seq<Byte>)
      requires outputBuffer.Valid()
      modifies this`notices, this`channelWriting, this`channelWatched, outputBuffer, outputBuffer.buffer
      ensures outputBuffer.Valid() && (outputBuffer.buffer == old(outputBuffer.buffer) || fresh(outputBuffer.buffer))
      ensures outputBuffer.Contents() == old(outputBuffer.Contents()) + rest
      ensures channelWriting && channelWatched == (old(channelWatched) || !old(channelWriting))
      ensures notices == old(notices)
                       + (if old(outputBuffer.ReadableBytes()) < highWaterMark <= outputBuffer.ReadableBytes()
                          then [HighWaterMark(outputBuffer.ReadableBytes())] else [])
    {
      var oldLen := outputBuffer.ReadableBytes();
      if oldLen + |rest| >= highWaterMark && oldLen < highWaterMark {
        notices := notices + [HighWaterMark(oldLen + |rest|)];
      }
      outputBuffer.Append(rest);
      assert outputBuffer.ReadableBytes() == |outputBuffer.Contents()|;
      if !channelWriting {
        channelWriting := true;
        UpdateChannel();
      }
    }

    /** `send` called in the loop thread. */
    method Send(message: seq<Byte>, result: WriteResult)
      requires Valid() && Enabled(Model(), TcpState.Send(message, result))
      modifies this, outputBuffer, outputBuffer.buffer
      ensures outputBuffer.buffer == old(outputBuffer.buffer) || fresh(outputBuffer.buffer)
      ensures Valid() && Model() == Apply(old(Model()), TcpState.Send(message, result))
      ensures var direct := !old(channelWriting) && old(outputBuffer.Contents()) == [];
              if old(state) == Connected && !(direct && (result == Error(EPIPE) || result == Error(ECONNRESET))) then
                && accepted == old(accepted) + [message]
                && |sent| == old(|sent|) + if direct && result.Wrote? then result.n else 0
              else
                Model() == old(Model())
    {
      hide Inv;
      StepInv(Model(), TcpState.Send(message, result));
      if state == Connected {
        SendInLoop(message, result);
      }
    }

    method ShutdownInLoop()
      requires outputBuffer.Valid()
      modifies this`halfCloses
      ensures Model() == TcpState.ShutdownInLoop(old(Model()))
      ensures halfCloses == old(halfCloses) + if channelWriting then [] else [HalfClose(state, outputBuffer.Contents())]
    {
      if !channelWriting {
        var unsent := outputBuffer.buffer[outputBuffer.readerIndex..outputBuffer.writerIndex];
        halfCloses := halfCloses + [HalfClose(state, unsent)];
      }
    }

    /** `shutdown` called in the loop thread. */
    method Shutdown()
      requires Valid()
      modifies this`state, this`halfCloses
      ensures Valid() && Model() == Apply(old(Model()), TcpState.Shutdown)
      ensures state == if old(state) == Connected then Disconnecting else old(state)
      ensures halfCloses == old(halfCloses) + if old(state) == Connected && !channelWriting then
                                                [HalfClose(Disconnecting, outputBuffer.Contents())]
                                              else []
    {
      hide Inv;
      StepInv(Model(), TcpState.Shutdown);
      if state == Connected {
        state := Disconnecting;
        ShutdownInLoop();
      }
    }

    /** `forceClose` called in the loop thread. */
    method ForceClose()
      requires Valid()
      modifies this`state, this`pending
      ensures Valid() && Model() == Apply(old(Model()), TcpState.ForceClose)
      ensures old(state) == Connected || old(state) == Disconnecting ==>
                state == Disconnecting && pending == old(pending) + [ForceCloseFunctor]
      ensures old(state) == Connecting || old(state) == Disconnected ==>
                state == old(state) && pending == old(pending)
    {
      hide Inv;
      StepInv(Model(), TcpState.ForceClose);
      if state == Connected || state == Disconnecting {
        state := Disconnecting;
        pending := pending + [ForceCloseFunctor];
      }
    }

    /** `forceCloseWithDelay` called in the loop thread; its timer calls `ForceClose` later. */
    method ForceCloseWithDelay()
      requires Valid()
      modifies this`state
      ensures Valid() && Model() == Apply(old(Model()), DelayForceClose)
      ensures state == if old(state) == Connected then Disconnecting else old(state)
    {
      hide Inv;
      StepInv(Model(), DelayForceClose);
      if state == Connected || state == Disconnecting {
        state := Disconnecting;
      }
    }

    /** The test of `state_` in a call by another thread. */
    method TestState(tid: nat, call: Call)
      requires Valid() && tid !in callers
      modifies this`callers
      ensures Valid() && Model() == Apply(old(Model()), Test(tid, call))
      ensures state == Connected ==> callers == old(callers)[tid := Tested(call)]
      ensures state == Disconnecting ==>
                callers == if call.ForceCloseCall? || call.DelayForceCloseCall? then
                             old(callers)[tid := Tested(call)]
                           else
                             old(callers)
      ensures state == Connecting || state == Disconnected ==> callers == old(callers)
    {
      hide Inv;
      StepInv(Model(), Test(tid, call));
      if state == Connected || (state == Disconnecting && (call.ForceCloseCall? || call.DelayForceCloseCall?)) {
        callers := callers[tid := Tested(call)];
      }
    }

    /** Its `setState(kDisconnecting)`, whatever `state_` is by now. */
    method SetDisconnecting(tid: nat)
      requires Valid() && Enabled(Model(), Set(tid))
      modifies this`callers, this`state
      ensures Valid() && Model() == Apply(old(Model()), Set(tid))
      ensures state == Disconnecting && callers == old(callers)[tid := Leaving(old(callers)[tid].call)]
    {
      hide Inv;
      StepInv(Model(), Set(tid));
      state := Disconnecting;
      callers := callers[tid := Leaving(callers[tid].call)];
    }

    /** Its `runInLoop` or `queueInLoop`. */
    method QueueFunctor(tid: nat)
      requires Valid() && Enabled(Model(), Queue(tid))
      modifies this`callers, this`pending
      ensures Valid() && Model() == Apply(old(Model()), Queue(tid))
      ensures callers == old(callers) - {tid}
      ensures match old(callers)[tid].call
              case SendCall(message) => pending == old(pending) + [SendFunctor(message)]
              case ShutdownCall => pending == old(pending) + [ShutdownFunctor]
              case ForceCloseCall => pending == old(pending) + [ForceCloseFunctor]
              case DelayForceCloseCall => pending == old(pending)
    {
      hide Inv;
      StepInv(Model(), Queue(tid));
      match callers[tid].call
      {
        case SendCall(message) => pending := pending + [SendFunctor(message)];
        case ShutdownCall => pending := pending + [ShutdownFunctor];
        case ForceCloseCall => pending := pending + [ForceCloseFunctor];
        case DelayForceCloseCall => assert pending + [] == pending;
      }
      callers := callers - {tid};
    }

    /** `handleClose`: the channel loses all its events. */
    method HandleClose()
      requires outputBuffer.Valid() && (state == Connected || state == Disconnecting)
      modifies this`state, this`channelReading, this`channelWriting, this`channelWatched, this`closes
      ensures Model() == Close(old(Model()))
      ensures state == Disconnected && !channelReading && !channelWriting
      ensures channelWatched == !old(channelWatched) && closes == old(closes) + 1
    {
      assert state == Connected || state == Disconnecting;
      state := Disconnected;
      channelReading, channelWriting := false, false;
      UpdateChannel();
      closes := closes + 1;
    }

    method ForceCloseInLoop()
      requires outputBuffer.Valid()
      modifies this`state, this`channelReading, this`channelWriting, this`channelWatched, this`closes
      ensures Model() == TcpState.ForceCloseInLoop(old(Model()))
      ensures if old(state) == Connected || old(state) == Disconnecting then
                state == Disconnected && !channelReading && !channelWriting && closes == old(closes) + 1
              else
                Model() == old(Model())
    {
      if state == Connected || state == Disconnecting {
        HandleClose();
      }
    }

    /** The event loop runs the first functor queued for this connection. */
    method RunNextFunctor(result: WriteResult)
      requires Valid() && Enabled(Model(), RunFunctor(result))
      modifies this, outputBuffer, outputBuffer.buffer
      ensures outputBuffer.buffer == old(outputBuffer.buffer) || fresh(outputBuffer.buffer)
      ensures Valid() && Model() == Apply(old(Model()), RunFunctor(result))
      ensures pending == old(pending)[1..] && callers == old(callers)
      ensures match old(pending)[0]
              case SendFunctor(message) =>
                && state == old(state) && halfCloses == old(halfCloses) && closes == old(closes)
                && var direct := !old(channelWriting) && old(outputBuffer.Contents()) == [];
                   if state == Disconnected || (direct && (result == Error(EPIPE) || result == Error(ECONNRESET))) then
                     accepted == old(accepted) && sent == old(sent)
                   else
                     && accepted == old(accepted) + [message]
                     && |sent| == old(|sent|) + if direct && result.Wrote? then result.n else 0
              case ShutdownFunctor =>
                && state == old(state) && accepted == old(accepted) && closes == old(closes)
                && halfCloses == old(halfCloses) + if channelWriting then []
                                                   else [HalfClose(state, outputBuffer.Contents())]
              case ForceCloseFunctor =>
                && accepted == old(accepted) && halfCloses == old(halfCloses)
                && if old(state) == Connected || old(state) == Disconnecting then
                     state == Disconnected && closes == old(closes) + 1
                   else
                     state == old(state) && closes == old(closes)
    {
      hide Inv;
      StepInv(Model(), RunFunctor(result));
      var functor := pending[0];
      pending := pending[1..];
      match functor
      case SendFunctor(message) => SendInLoop(message, result);
      case ShutdownFunctor => ShutdownInLoop();
      case ForceCloseFunctor => ForceCloseInLoop();
    }

    /** `handleWrite`: send what the socket takes; when drained, stop writing and finish a pending shutdown. */
    method HandleWrite(result: WriteResult)
      requires Valid() && Enabled(Model(), TcpState.HandleWrite(result))
      modifies this, outputBuffer, outputBuffer.buffer
      ensures outputBuffer.buffer == old(outputBuffer.buffer)
      ensures Valid() && Model() == Apply(old(Model()), TcpState.HandleWrite(result))
      ensures state == old(state) && channelReading == old(channelReading) && pending == old(pending)
      ensures accepted == old(accepted) && callers == old(callers) && closes == old(closes) && dropped == old(dropped)
      ensures if old(channelWriting) && result.Wrote? && result.n > 0 then
                && sent == old(sent) + old(outputBuffer.Contents())[..result.n]
                && outputBuffer.Contents() == old(outputBuffer.Contents())[result.n..]
                && channelWriting == (outputBuffer.Contents() != [])
                && notices == old(notices) + (if channelWriting then [] else [WriteComplete])
                && halfCloses == old(halfCloses) + if !channelWriting && state == Disconnecting then
                                                     [HalfClose(Disconnecting, [])]
                                                   else []
              else
                Model() == old(Model())
    {
      hide Inv;
      StepInv(Model(), TcpState.HandleWrite(result));
      WriteCases(Model(), result);
      hide Apply, Enabled;
      if channelWriting {
        if result.Wrote? && result.n > 0 {
          sent := sent + outputBuffer.buffer[outputBuffer.readerIndex..outputBuffer.readerIndex + result.n];
          assert sent == old(sent) + old(outputBuffer.Contents())[..result.n];
          outputBuffer.Retrieve(result.n);
          assert outputBuffer.ReadableBytes() == |outputBuffer.Contents()|;
          if outputBuffer.ReadableBytes() == 0 {
            FinishWriting();
          }
        }
      }
    }

    /** The end of `handleWrite`, on an empty buffer. */
    method FinishWriting()
      requires outputBuffer.Valid()
      modifies this`channelWriting, this`channelWatched, this`notices, this`halfCloses
      ensures Model() == Drained(old(Model()))
      ensures !channelWriting && channelWatched == (!old(channelWatched) || channelReading)
      ensures notices == old(notices) + [WriteComplete]
      ensures halfCloses == old(halfCloses) + if state == Disconnecting then
                                                [HalfClose(Disconnecting, outputBuffer.Contents())]
                                              else []
    {
      channelWriting := false;
      UpdateChannel();
      notices := notices + [WriteComplete];
      if state == Disconnecting {
        ShutdownInLoop();
      }
    }

    /** A channel that epoll watches sees its peer hang up, or reads the end of the stream; the connection is up. */
    method SeePeerClose()
      requires Valid() && channelWatched && (state == Connected || state == Disconnecting)
      modifies this`state, this`channelReading, this`channelWriting, this`channelWatched, this`closes
      ensures Valid() && Model() == Apply(old(Model()), TcpState.HandleClose)
      ensures state == Disconnected && !channelReading && !channelWriting && !channelWatched
      ensures closes == old(closes) + 1
    {
      hide Inv;
      StepInv(Model(), TcpState.HandleClose);
      HandleClose();
    }

    /** `connectDestroyed`: the channel must have no events left when it is removed. */
    method ConnectDestroyed()
      requires Valid() && Enabled(Model(), Destroy)
      modifies this`state, this`channelReading, this`channelWriting, this`channelWatched, this`dropped
      ensures Valid() && Model() == Apply(old(Model()), Destroy)
      ensures !channelReading && !channelWriting && !channelWatched
      ensures state == if old(state) == Connected then Disconnected else old(state)
      ensures dropped == old(dropped) + if old(state) == Connected then 1 else 0
    {
      hide Inv;
      StepInv(Model(), Destroy);
      if state == Connected {
        state := Disconnected;
        channelReading, channelWriting := false, false;
        dropped := dropped + 1;
      }
      channelWatched := false;
      assert !channelReading && !channelWriting;
    }

    /** `connectDestroyed` while thread `tid` sets `state_` between its test and its set. */
    method ConnectDestroyedOver(tid: nat)
      requires Valid() && Enabled(Model(), DestroyOver(tid))
      modifies this`state, this`channelReading, this`channelWriting, this`channelWatched, this`dropped, this`callers
      ensures Valid() && Model() == Apply(old(Model()), DestroyOver(tid))
      ensures !channelReading && !channelWriting && !channelWatched
      ensures state == Disconnected && dropped == old(dropped) + 1
      ensures callers == old(callers)[tid := Leaving(old(callers)[tid].call)]
    {
      hide Inv;
      StepInv(Model(), DestroyOver(tid));
      DestroyOverApplies(Model(), tid);
      hide Apply, Enabled;
      if state == Connected {
        callers, state := callers[tid := Leaving(callers[tid].call)], Disconnecting;
        state := Disconnected;
        channelReading, channelWriting := false, false;
        dropped := dropped + 1;
      }
      channelWatched := false;
    }

    /** Any step, of the loop or of another thread; one that is not enabled changes nothing. */
    method Perform(step: Step)
      requires Valid()
      modifies this, outputBuffer, outputBuffer.buffer
      ensures outputBuffer.buffer == old(outputBuffer.buffer) || fresh(outputBuffer.buffer)
      ensures Valid() && Model() == Apply(old(Model()), step)
    {
      hide Inv;
      var enabled := IsEnabled(step);
      if enabled {
        match step
        case Test(tid, call) => TestState(tid, call);
        case Set(tid) => SetDisconnecting(tid);
        case Queue(tid) => QueueFunctor(tid);
        case Establish => ConnectEstablished();
        case Send(message, result) => Send(message, result);
        case Shutdown => Shutdown();
        case ForceClose => ForceClose();
        case DelayForceClose => ForceCloseWithDelay();
        case RunFunctor(result) => RunNextFunctor(result);
        case HandleWrite(result) => HandleWrite(result);
        case HandleClose => SeePeerClose();
        case Destroy => ConnectDestroyed();
        case DestroyOver(tid) => ConnectDestroyedOver(tid);
      }
    }

    method IsEnabled(step: Step) returns (enabled: bool)
      requires Valid()
      ensures enabled <==> Enabled(Model(), step)
    {
      match step
      case Test(tid, _) => enabled := tid !in callers;
      case Set(tid) => enabled := tid in callers && callers[tid].Tested? && !callers[tid].call.SendCall?;
      case Queue(tid) => enabled := tid in callers && (callers[tid].Leaving? || callers[tid].call.SendCall?);
      case Establish => enabled := state == Connecting;
      case Send(message, result) => enabled := CanReturn(|message|, result);
      case RunFunctor(result) =>
        enabled := pending != [] && (pending[0].SendFunctor? ==> CanReturn(|pending[0].message|, result));
      case HandleWrite(result) => enabled := CanReturn(outputBuffer.ReadableBytes(), result);
      case HandleClose => enabled := channelWatched && (state == Connected || state == Disconnecting);
      case Destroy => enabled := state == Connected || (!channelReading && !channelWriting);
      case DestroyOver(tid) =>
        enabled := state == Connected && tid in callers && callers[tid].Tested? && !callers[tid].call.SendCall?;
      case _ => enabled := true;
    }

    predicate CanReturn(offered: nat, result: WriteResult)
      reads this
    {
      (result.Wrote? ==> result.n <= offered) && (halfCloses != [] ==> result == Error(EPIPE))
    }

    method PerformAll(steps: seq<Step>)
      requires Valid()
      modifies this, outputBuffer, outputBuffer.buffer
      ensures outputBuffer.buffer == old(outputBuffer.buffer) || fresh(outputBuffer.buffer)
      ensures Valid() && Model() == Run(old(Model()), steps)
    {
      hide Inv, Apply;
      ghost var s := Model();
      assert Run(s, steps[..0]) == s;
      for i := 0 to |steps|
        invariant outputBuffer.buffer == old(outputBuffer.buffer) || fresh(outputBuffer.buffer)
        invariant Valid() && Model() == Run(s, steps[..i])
      {
        Perform(steps[i]);
        RunSnoc(s, steps, i);
      }
      assert steps[..|steps|] == steps;
    }

    /**
     `send`, `shutdown`, `forceClose` or `forceCloseWithDelay` called by another thread, anything at all
     happening between its test and its `setState`, and again before it queues its functor.
     */
    method CallFrom(tid: nat, call: Call, afterTest: seq<Step>, afterSet: seq<Step>)
      requires Valid() && tid !in callers
      modifies this, outputBuffer, outputBuffer.buffer
      ensures outputBuffer.buffer == old(outputBuffer.buffer) || fresh(outputBuffer.buffer)
      ensures Valid()
      ensures Model() == Run(old(Model()), [Test(tid, call)] + afterTest + [Set(tid)] + afterSet + [Queue(tid)])
    {
      hide Inv, Apply;
      ghost var s := Model();
      RunOne(s, Test(tid, call));
      TestState(tid, call);
      PerformAll(afterTest);
      RunConcat(s, [Test(tid, call)], afterTest);
      PerformAll([Set(tid)]);
      RunConcat(s, [Test(tid, call)] + afterTest, [Set(tid)]);
      PerformAll(afterSet);
      RunConcat(s, [Test(tid, call)] + afterTest + [Set(tid)], afterSet);
      PerformAll([Queue(tid)]);
      RunConcat(s, [Test(tid, call)] + afterTest + [Set(tid)] + afterSet, [Queue(tid)]);
    }
  }

  lemma DestroyOverApplies(s: State, tid: nat)
    requires Enabled(s, DestroyOver(tid))
    ensures s.phase.Connected? && tid in s.callers
    ensures Apply(s, DestroyOver(tid))
         == DestroyConnected(s).(callers := s.callers[tid := Leaving(s.callers[tid].call)])
  {
  }

  lemma RunSnoc(s: State, steps: seq<Step>, i: nat)
    requires i < |steps|
    ensures Run(s, steps[..i + 1]) == Apply(Run(s, steps[..i]), steps[i])
  {
    assert steps[..i + 1] == steps[..i] + [steps[i]];
    RunConcat(s, steps[..i], [steps[i]]);
    RunOne(Run(s, steps[..i]), steps[i]);
  }
}
