/**
 `muduo::net::EventLoop`, proved against the protocol of `EventLoopState`. What other threads do, and
 what the handlers and functors queue, is a list of steps for each moment at which it can happen.
 */
module EventLoops {
  import opened EventLoopState

  /** Steps of other threads, and of user code in the loop thread. */
  predicate FromOutside(step: Step) {
    step.Push? || step.Wakeup? || step.Quit? || step.QuitWakeup? || step.LoopPush? || step.LoopWakeup? || step.LoopQuit?
  }

  /** A moment: the loop thread finishes a `wakeup` it began before it goes on. */
  function Moment(steps: seq<Step>): seq<Step> {
    steps + [LoopWakeup]
  }

  function CallSteps(n: nat, script: seq<seq<Step>>): seq<Step> {
    if n == 0 then []
    else CallSteps(n - 1, script) + ([CallNext] + Moment(During(script, n - 1)))
  }

  function During(script: seq<seq<Step>>, i: nat): seq<Step> {
    if i < |script| then script[i] else []
  }

  /** Everything that happens around one poll, moment by moment, and whether it reports the wakeup channel. */
  datatype Pass = Pass(
    beforeCheck: seq<Step>,
    inPoll: seq<Step>,
    wakeupActive: bool,
    inHandlers: seq<Step>,
    afterRead: seq<Step>,
    afterSwap: seq<Step>,
    script: seq<seq<Step>>)

  predicate PassFromOutside(pass: Pass) {
    forall steps <- [pass.beforeCheck, pass.inPoll, pass.inHandlers, pass.afterRead, pass.afterSwap] + pass.script,
      step <- steps :: FromOutside(step)
  }

  /** From the poll to the functors, `n` of them. */
  function PassSteps(pass: Pass, active: bool, n: nat): seq<Step> {
    Moment(pass.inPoll) + HandleSteps(pass, active) + PendingSteps(pass.afterSwap, pass.script, n)
  }

  function HandleSteps(pass: Pass, active: bool): seq<Step> {
    [PollReturns(active)] + Moment(pass.inHandlers) + (if active then [ReadWakeup] else []) + Moment(pass.afterRead)
  }

  function PendingSteps(afterSwap: seq<Step>, script: seq<seq<Step>>, n: nat): seq<Step> {
    [Swap] + Moment(afterSwap) + CallSteps(n, script) + [FinishCalls]
  }

  function CheckSteps(pass: Pass): seq<Step> {
    Moment(pass.beforeCheck) + [Check]
  }

  /** `loop` up to the end of the last of these rounds. */
  function LoopSteps(passes: seq<Pass>, rounds: seq<(bool, nat)>): seq<Step>
    requires |rounds| <= |passes|
  {
    if rounds == [] then [StartLoop]
    else
      var i := |rounds| - 1;
      LoopSteps(passes, rounds[..i]) + CheckSteps(passes[i]) + PassSteps(passes[i], rounds[i].0, rounds[i].1)
  }

  class EventLoop {
    var pendingFunctors: seq<Functor>
    var wakeupCounter: nat
    var quit: bool
    var callingPendingFunctors: bool
    var pc: Pc
    var pushing: set<nat>
    var quitting: set<nat>
    var loopPushing: bool
    var silent: bool
    var queued: seq<Functor>
    var executed: seq<Functor>

    ghost function Model(): State
      reads this
    {
      State(pendingFunctors, wakeupCounter, quit, pc, pushing, quitting, loopPushing, silent, queued, executed)
    }

    ghost predicate Valid()
      reads this
    {
      Inv(Model()) && callingPendingFunctors == pc.Calling?
    }

    constructor ()
      ensures Valid() && Model() == Init()
      ensures pendingFunctors == [] && wakeupCounter == 0 && !quit && pc == Outside && !loopPushing
    {
      pendingFunctors, wakeupCounter, quit, pc, callingPendingFunctors := [], 0, false, Outside, false;
      pushing, quitting, loopPushing, silent, queued, executed := {}, {}, false, false, [], [];
    }

    /** The write to the eventfd. */
    method WriteWakeup()
      modifies this`wakeupCounter
      ensures wakeupCounter == old(wakeupCounter) + 1
    {
      wakeupCounter := wakeupCounter + 1;
    }

    /** The locked region of `queueInLoop`. */
    method PushFunctor(cb: Functor)
      modifies this`pendingFunctors, this`queued
      ensures pendingFunctors == old(pendingFunctors) + [cb] && queued == old(queued) + [cb]
    {
      pendingFunctors := pendingFunctors + [cb];
      queued := queued + [cb];
    }

    /** `queueInLoop` called by the loop thread: it wakes the poll only from inside a functor. */
    method QueueInLoop(cb: Functor)
      requires Valid() && Enabled(Model(), LoopPush(cb))
      modifies this
      ensures Valid()
      ensures Model() == Run(old(Model()), if old(pc).Calling? then [LoopPush(cb), LoopWakeup] else [LoopPush(cb)])
      ensures wakeupCounter == old(wakeupCounter) + if old(pc).Calling? then 1 else 0
      ensures pendingFunctors == old(pendingFunctors) + [cb] && queued == old(queued) + [cb]
      ensures executed == old(executed) && pc == old(pc) && !loopPushing
    {
      hide Inv;
      ghost var s := Model();
      BeginPush(cb);
      RunOne(s, LoopPush(cb));
      if callingPendingFunctors {
        RunOne(Model(), LoopWakeup);
        FinishPush();
        RunConcat(s, [LoopPush(cb)], [LoopWakeup]);
        assert [LoopPush(cb)] + [LoopWakeup] == [LoopPush(cb), LoopWakeup];
      }
    }

    /** Up to the unlocking. */
    method BeginPush(cb: Functor)
      requires Valid() && Enabled(Model(), LoopPush(cb))
      modifies this`pendingFunctors, this`queued, this`loopPushing, this`silent
      ensures Valid() && Model() == Apply(old(Model()), LoopPush(cb))
      ensures pendingFunctors == old(pendingFunctors) + [cb] && queued == old(queued) + [cb]
      ensures loopPushing == callingPendingFunctors == pc.Calling?
      ensures silent == (old(silent) || pc.Outside?)
    {
      hide Inv;
      StepInv(Model(), LoopPush(cb));
      PushFunctor(cb);
      loopPushing := callingPendingFunctors;
      silent := silent || pc.Outside?;
    }

    /** The `wakeup` at its end. */
    method FinishPush()
      requires Valid() && loopPushing
      modifies this`wakeupCounter, this`loopPushing
      ensures Valid() && Model() == Apply(old(Model()), LoopWakeup)
      ensures !loopPushing && wakeupCounter == old(wakeupCounter) + 1
    {
      hide Inv;
      StepInv(Model(), LoopWakeup);
      WriteWakeup();
      loopPushing := false;
    }

    /** `queueInLoop` called by another thread: its two halves, anything happening in between. */
    method QueueFrom(tid: nat, cb: Functor, between: seq<Step>)
      requires Valid() && Enabled(Model(), Push(tid, cb)) && forall step <- between :: FromOutside(step)
      modifies this
      ensures Valid() && Model() == Run(old(Model()), [Push(tid, cb)] + between + [Wakeup(tid)])
    {
      hide Inv, FromOutside;
      ghost var s := Model();
      HalvesFromOutside(tid, cb);
      PerformOthers([Push(tid, cb)]);
      PerformOthers(between);
      RunConcat(s, [Push(tid, cb)], between);
      PerformOthers([Wakeup(tid)]);
      RunConcat(s, [Push(tid, cb)] + between, [Wakeup(tid)]);
    }

    method HandleRead()
      requires Valid() && pc == Handling(true)
      modifies this`wakeupCounter, this`pc
      ensures Valid() && pc == Handling(false) && Model() == Apply(old(Model()), ReadWakeup)
      ensures wakeupCounter == 0
    {
      hide Inv;
      StepInv(Model(), ReadWakeup);
      wakeupCounter := 0;
      pc := Handling(false);
    }

    /** One step of another thread or of user code; one that is not enabled changes nothing. */
    method PerformOther(step: Step)
      requires Valid() && FromOutside(step)
      modifies this
      ensures Valid() && Model() == Apply(old(Model()), step)
      ensures pc == old(pc) && executed == old(executed)
    {
      hide Inv;
      if step.LoopPush? {
        if (pc.Outside? || pc.Handling? || (pc.Calling? && pc.next > 0)) && !loopPushing {
          BeginPush(step.g);
        }
      } else if step.LoopWakeup? {
        if loopPushing {
          FinishPush();
        }
      } else {
        PerformHalf(step);
      }
    }

    /** Half of another thread's `queueInLoop` or `quit`, or `quit` called by the loop thread. */
    method PerformHalf(step: Step)
      requires Valid() && FromOutside(step) && !step.LoopPush? && !step.LoopWakeup?
      modifies this`pendingFunctors, this`queued, this`pushing, this`quitting, this`quit, this`wakeupCounter
      ensures Valid() && Model() == Apply(old(Model()), step)
      ensures match step
              case Push(tid, f) =>
                if tid in old(pushing) + quitting then Model() == old(Model())
                else
                  && pendingFunctors == old(pendingFunctors) + [f] && pushing == old(pushing) + {tid}
                  && quit == old(quit) && wakeupCounter == old(wakeupCounter)
              case Wakeup(tid) =>
                && pendingFunctors == old(pendingFunctors) && quit == old(quit) && pushing == old(pushing) - {tid}
                && wakeupCounter == old(wakeupCounter) + if tid in old(pushing) then 1 else 0
              case Quit(tid) =>
                if tid in pushing + old(quitting) then Model() == old(Model())
                else
                  && quit && quitting == old(quitting) + {tid}
                  && pendingFunctors == old(pendingFunctors) && wakeupCounter == old(wakeupCounter)
              case QuitWakeup(tid) =>
                && pendingFunctors == old(pendingFunctors) && quit == old(quit) && quitting == old(quitting) - {tid}
                && wakeupCounter == old(wakeupCounter) + if tid in old(quitting) then 1 else 0
              case LoopQuit =>
                && (!pc.Polling? && !pc.Checking? && !(pc.Calling? && pc.next == 0) && !loopPushing ==> quit)
                && pendingFunctors == old(pendingFunctors) && wakeupCounter == old(wakeupCounter)
    {
      hide Inv;
      StepInv(Model(), step);
      match step
      case Push(tid, f) =>
        if tid !in pushing && tid !in quitting {
          PushFunctor(f);
          pushing := pushing + {tid};
        }
      case Wakeup(tid) =>
        if tid in pushing {
          WriteWakeup();
          pushing := pushing - {tid};
        }
      case Quit(tid) =>
        if tid !in pushing && tid !in quitting {
          quit, quitting := true, quitting + {tid};
        }
      case QuitWakeup(tid) =>
        if tid in quitting {
          WriteWakeup();
          quitting := quitting - {tid};
        }
      case LoopQuit =>
        if (pc.Outside? || pc.Handling? || (pc.Calling? && pc.next > 0)) && !loopPushing {
          quit := true;
        }
    }

    method PerformOthers(others: seq<Step>)
      requires Valid() && forall step <- others :: FromOutside(step)
      modifies this
      ensures Valid() && Model() == Run(old(Model()), others)
      ensures pc == old(pc) && executed == old(executed)
    {
      hide Inv, Apply, FromOutside;
      ghost var s := Model();
      for i := 0 to |others|
        invariant Valid() && Model() == Run(s, others[..i])
        invariant pc == s.pc && executed == s.executed
      {
        PerformOther(others[i]);
        RunSnoc(s, others, i);
      }
      assert others[..|others|] == others;
    }

    /** A moment of the loop thread, with everything that happens in it. */
    method PerformMoment(steps: seq<Step>)
      requires Valid() && forall step <- steps :: FromOutside(step)
      modifies this
      ensures Valid() && Model() == Run(old(Model()), Moment(steps))
      ensures pc == old(pc) && executed == old(executed) && !loopPushing
    {
      hide Inv, FromOutside;
      ghost var s := Model();
      PerformOthers(steps);
      RunConcat(s, steps, [LoopWakeup]);
      RunOne(Model(), LoopWakeup);
      if loopPushing {
        FinishPush();
      }
    }

    /** The functor at `next` runs. */
    method CallFunctor(during: seq<Step>)
      requires Valid() && pc.Calling? && !loopPushing && pc.next < |pc.functors|
      requires forall step <- during :: FromOutside(step)
      modifies this
      ensures Valid() && Model() == Run(old(Model()), [CallNext] + Moment(during))
      ensures pc == Calling(old(pc).functors, old(pc).next + 1) && !loopPushing
      ensures executed == old(executed) + [old(pc).functors[old(pc).next]]
    {
      hide Inv, FromOutside;
      ghost var s := Model();
      CallIt();
      RunOne(s, CallNext);
      PerformMoment(during);
      RunConcat(s, [CallNext], Moment(during));
    }

    method CallIt()
      requires Valid() && pc.Calling? && !loopPushing && pc.next < |pc.functors|
      modifies this`executed, this`pc
      ensures Valid() && Model() == Apply(old(Model()), CallNext)
      ensures pc == Calling(old(pc).functors, old(pc).next + 1)
      ensures executed == old(executed) + [old(pc).functors[old(pc).next]]
    {
      hide Inv;
      StepInv(Model(), CallNext);
      executed := executed + [pc.functors[pc.next]];
      pc := Calling(pc.functors, pc.next + 1);
    }

    /** The locked swap that begins `doPendingFunctors`. */
    method SwapFunctors() returns (functors: seq<Functor>)
      requires Valid() && pc == Handling(false)
      modifies this`callingPendingFunctors, this`pendingFunctors, this`pc, this`silent
      ensures Valid() && Model() == Apply(old(Model()), Swap)
      ensures functors == old(pendingFunctors) && pendingFunctors == []
      ensures pc == Calling(functors, 0) && !silent
    {
      hide Inv;
      StepInv(Model(), Swap);
      callingPendingFunctors := true;
      functors := pendingFunctors;
      pendingFunctors := [];
      pc := Calling(functors, 0);
      silent := false;
    }

    /** `doPendingFunctors`: `script[i]` is what happens from the call of the `i`-th functor to the next. */
    method DoPendingFunctors(afterSwap: seq<Step>, script: seq<seq<Step>>)
      requires Valid() && pc == Handling(false)
      requires forall step <- afterSwap :: FromOutside(step)
      requires forall steps <- script, step <- steps :: FromOutside(step)
      modifies this
      ensures Valid() && pc.Checking? && !loopPushing
      ensures Model() == Run(old(Model()), PendingSteps(afterSwap, script, |old(pendingFunctors)|))
      ensures executed == old(executed) + old(pendingFunctors)
    {
      hide Inv, Apply, Enabled, FromOutside, Moment;
      ghost var s := Model();
      var functors := SwapFunctors();
      PerformMoment(afterSwap);
      RunOne(s, Swap);
      RunConcat(s, [Swap], Moment(afterSwap));
      ghost var s1 := Model();
      CallAll(functors, script);
      FinishAfter(s, [Swap] + Moment(afterSwap), CallSteps(|functors|, script));
      FinishCalling();
    }

    /** The loop over the functors. */
    method CallAll(functors: seq<Functor>, script: seq<seq<Step>>)
      requires Valid() && pc == Calling(functors, 0) && !loopPushing
      requires forall steps <- script, step <- steps :: FromOutside(step)
      modifies this
      ensures Valid() && pc == Calling(functors, |functors|) && !loopPushing
      ensures Model() == Run(old(Model()), CallSteps(|functors|, script))
      ensures executed == old(executed) + functors
    {
      hide Inv, Apply, Enabled, FromOutside, Moment;
      ghost var s := Model();
      for i := 0 to |functors|
        invariant Valid() && pc == Calling(functors, i) && !loopPushing
        invariant Model() == Run(s, CallSteps(i, script))
        invariant executed == s.executed + functors[..i]
      {
        var during := if i < |script| then script[i] else [];
        CallFunctor(during);
        RunConcat(s, CallSteps(i, script), [CallNext] + Moment(during));
        assert functors[..i + 1] == functors[..i] + [functors[i]];
      }
      assert functors[..|functors|] == functors;
    }

    method FinishCalling()
      requires Valid() && pc.Calling? && !loopPushing && pc.next == |pc.functors|
      modifies this`callingPendingFunctors, this`pc
      ensures Valid() && pc.Checking? && !loopPushing && Model() == Apply(old(Model()), FinishCalls)
    {
      hide Inv;
      StepInv(Model(), FinishCalls);
      callingPendingFunctors := false;
      pc := Checking;
    }

    /** The poll returns and the active channels are handled, the wakeup channel among the others. */
    method HandleActive(pass: Pass, active: bool)
      requires Valid() && pc.Polling? && !loopPushing && (active ==> wakeupCounter > 0)
      requires PassFromOutside(pass)
      modifies this
      ensures Valid() && pc == Handling(false) && !loopPushing && executed == old(executed)
      ensures Model() == Run(old(Model()), HandleSteps(pass, active))
    {
      hide Inv, FromOutside, Moment;
      PassMoments(pass);
      ghost var s := Model();
      ReturnFromPoll(active);
      RunOne(s, PollReturns(active));
      PerformMoment(pass.inHandlers);
      RunConcat(s, [PollReturns(active)], Moment(pass.inHandlers));
      ghost var trace := [PollReturns(active)] + Moment(pass.inHandlers);
      if active {
        RunOne(Model(), ReadWakeup);
        HandleRead();
        RunConcat(s, trace, [ReadWakeup]);
      }
      assert trace + [] == trace;
      ghost var longer := trace + if active then [ReadWakeup] else [];
      PerformMoment(pass.afterRead);
      RunConcat(s, longer, Moment(pass.afterRead));
    }

    method ReturnFromPoll(active: bool)
      requires Valid() && pc.Polling? && (active ==> wakeupCounter > 0)
      modifies this`pc
      ensures Valid() && pc == Handling(active) && Model() == Apply(old(Model()), PollReturns(active))
    {
      hide Inv;
      StepInv(Model(), PollReturns(active));
      pc := Handling(active);
    }

    /** The body of `loop`, from the poll to the functors. */
    method RunPass(pass: Pass) returns (active: bool, called: nat)
      requires Valid() && pc.Polling? && !loopPushing && PassFromOutside(pass)
      modifies this
      ensures Valid() && pc.Checking? && !loopPushing
      ensures Model() == Run(old(Model()), PassSteps(pass, active, called))
      ensures active <==> pass.wakeupActive && Run(old(Model()), Moment(pass.inPoll)).counter > 0
      ensures called == |Run(old(Model()), Moment(pass.inPoll) + HandleSteps(pass, active)).pending|
    {
      hide Inv, Run, Apply, FromOutside, Moment, HandleSteps, PendingSteps;
      PassMoments(pass);
      ghost var s := Model();
      PerformMoment(pass.inPoll);
      active := pass.wakeupActive && wakeupCounter > 0;
      HandleActive(pass, active);
      RunConcat(s, Moment(pass.inPoll), HandleSteps(pass, active));
      called := |pendingFunctors|;
      DoPendingFunctors(pass.afterSwap, pass.script);
      RunConcat(s, Moment(pass.inPoll) + HandleSteps(pass, active), PendingSteps(pass.afterSwap, pass.script, called));
    }

    /**
     `loop`, for as many polls as `passes` tells; it returns early when `quit` is seen. `rounds` tells of each
     poll whether it reported the wakeup channel, and how many functors were called after it.
     */
    method Loop(passes: seq<Pass>) returns (rounds: seq<(bool, nat)>)
      requires Valid() && pc.Outside? && !loopPushing
      requires forall pass <- passes :: PassFromOutside(pass)
      modifies this
      ensures Valid() && (pc.Outside? || pc.Checking?) && |rounds| <= |passes|
      ensures pc.Checking? ==> |rounds| == |passes| && Model() == Run(old(Model()), LoopSteps(passes, rounds))
      ensures pc.Outside? ==>
                && quit && |rounds| < |passes|
                && Model() == Run(old(Model()), LoopSteps(passes, rounds) + CheckSteps(passes[|rounds|]))
      ensures executed + pendingFunctors == queued
    {
      hide Inv, FromOutside, PassFromOutside, PassSteps, CheckSteps;
      ghost var s := Model();
      StepInv(s, StartLoop);
      quit, pc := false, Checking;
      rounds := [];
      RunOne(s, StartLoop);
      assert Model() == Run(s, LoopSteps(passes, rounds));
      hide Run, Apply;
      for i := 0 to |passes|
        invariant Valid() && pc.Checking? && !loopPushing
        invariant |rounds| == i && Model() == Run(s, LoopSteps(passes, rounds))
      {
        ghost var trace := LoopSteps(passes, rounds);
        TestQuit(passes[i]);
        RunConcat(s, trace, CheckSteps(passes[i]));
        if quit {
          Settled(Model());
          return;
        }
        var active, called := RunPass(passes[i]);
        RunConcat(s, trace + CheckSteps(passes[i]), PassSteps(passes[i], active, called));
        rounds := rounds + [(active, called)];
        assert rounds[..i] + [rounds[i]] == rounds;
        assert LoopSteps(passes, rounds) == trace + CheckSteps(passes[i]) + PassSteps(passes[i], active, called);
      }
      Settled(Model());
    }

    /** The test of the loop condition. */
    method TestQuit(pass: Pass)
      requires Valid() && pc.Checking? && !loopPushing && PassFromOutside(pass)
      modifies this
      ensures Valid() && pc == (if quit then Outside else Polling) && !loopPushing
      ensures Model() == Run(old(Model()), CheckSteps(pass))
    {
      hide Inv, FromOutside, Moment;
      PassMoments(pass);
      ghost var s := Model();
      PerformMoment(pass.beforeCheck);
      StepInv(Model(), Check);
      RunOne(Model(), Check);
      RunConcat(s, Moment(pass.beforeCheck), [Check]);
      pc := if quit then Outside else Polling;
    }
  }

  lemma HalvesFromOutside(tid: nat, cb: Functor)
    ensures FromOutside(Push(tid, cb)) && FromOutside(Wakeup(tid))
  {
  }

  lemma PassMoments(pass: Pass)
    requires PassFromOutside(pass)
    ensures forall step <- pass.beforeCheck :: FromOutside(step)
    ensures forall step <- pass.inPoll :: FromOutside(step)
    ensures forall step <- pass.inHandlers :: FromOutside(step)
    ensures forall step <- pass.afterRead :: FromOutside(step)
    ensures forall step <- pass.afterSwap :: FromOutside(step)
    ensures forall steps <- pass.script, step <- steps :: FromOutside(step)
  {
    hide FromOutside;
    var moments := [pass.beforeCheck, pass.inPoll, pass.inHandlers, pass.afterRead, pass.afterSwap];
    assert moments[0] in moments + pass.script && moments[1] in moments + pass.script;
    assert moments[2] in moments + pass.script && moments[3] in moments + pass.script;
    assert moments[4] in moments + pass.script;
  }

  lemma RunSnoc(s: State, steps: seq<Step>, i: nat)
    requires i < |steps|
    ensures Run(s, steps[..i + 1]) == Apply(Run(s, steps[..i]), steps[i])
  {
    assert steps[..i + 1] == steps[..i] + [steps[i]];
    RunConcat(s, steps[..i], [steps[i]]);
    RunOne(Run(s, steps[..i]), steps[i]);
  }

  lemma Settled(s: State)
    requires Inv(s) && !s.pc.Calling?
    ensures s.executed + s.pending == s.queued
  {
    assert s.executed + [] + s.pending == s.executed + s.pending;
  }

  lemma FinishAfter(s: State, before: seq<Step>, calls: seq<Step>)
    ensures Run(s, before + calls + [FinishCalls]) == Apply(Run(Run(s, before), calls), FinishCalls)
  {
    RunConcat(s, before, calls);
    RunConcat(s, before + calls, [FinishCalls]);
    RunOne(Run(s, before + calls), FinishCalls);
  }
}
