/**
 `muduo::net::EventLoop`: the functor queue, the eventfd that wakes the poll, and `quit`, as a
 protocol between the loop thread and any number of other threads. Pushing and waking are separate
 steps, since `queueInLoop` unlocks in between.
 */
module EventLoopState {

  /** A functor is known by a number. */
  type Functor = nat

  /** Where the loop thread is. `Handling` remembers whether the wakeup channel is among the active ones. */
  datatype Pc =
    | Outside
    | Checking
    | Polling
    | Handling(wakeupActive: bool)
    | Calling(functors: seq<Functor>, next: nat)

  /**
   `pushing` and `quitting`: other threads between their change and their `wakeup`; `loopPushing`: the
   loop thread itself there. `silent`: a functor was queued by the loop thread outside `loop()` and is
   still pending. `queued` and `executed` are histories.
   */
  datatype State = State(
    pending: seq<Functor>,
    counter: nat,
    quit: bool,
    pc: Pc,
    pushing: set<nat>,
    quitting: set<nat>,
    loopPushing: bool,
    silent: bool,
    queued: seq<Functor>,
    executed: seq<Functor>)

  function Init(): State {
    State([], 0, false, Outside, {}, {}, false, false, [], [])
  }

  datatype Step =
    | Push(tid: nat, f: Functor)
    | Wakeup(waker: nat)
    | LoopPush(g: Functor)
    | LoopWakeup
    | Quit(quitter: nat)
    | QuitWakeup(quitWaker: nat)
    | LoopQuit
    | StartLoop
    | Check
    | PollReturns(wakeupActive: bool)
    | ReadWakeup
    | Swap
    | CallNext
    | FinishCalls

  /** The loop thread runs user code: outside the loop, in a handler, or in a functor. */
  predicate InUserCode(pc: Pc) {
    pc.Outside? || pc.Handling? || (pc.Calling? && pc.next > 0)
  }

  predicate Enabled(s: State, step: Step) {
    match step
    case Push(tid, _) => tid !in s.pushing && tid !in s.quitting
    case Wakeup(tid) => tid in s.pushing
    case LoopPush(_) => InUserCode(s.pc) && !s.loopPushing
    case LoopWakeup => s.loopPushing
    case Quit(tid) => tid !in s.pushing && tid !in s.quitting
    case QuitWakeup(tid) => tid in s.quitting
    case LoopQuit => InUserCode(s.pc) && !s.loopPushing
    case StartLoop => s.pc.Outside? && !s.loopPushing
    case Check => s.pc.Checking?
    case PollReturns(active) => s.pc.Polling? && (active ==> s.counter > 0)
    case ReadWakeup => s.pc.Handling? && s.pc.wakeupActive
    case Swap => s.pc.Handling? && !s.pc.wakeupActive
    case CallNext => s.pc.Calling? && !s.loopPushing && s.pc.next < |s.pc.functors|
    case FinishCalls => s.pc.Calling? && !s.loopPushing && s.pc.next == |s.pc.functors|
  }

  function Apply(s: State, step: Step): State {
    if !Enabled(s, step) then s
    else
      match step
      case Push(tid, f) =>
        s.(pending := s.pending + [f], queued := s.queued + [f], pushing := s.pushing + {tid})
      case Wakeup(tid) => s.(counter := s.counter + 1, pushing := s.pushing - {tid})
      case LoopPush(f) =>
        s.(pending := s.pending + [f], queued := s.queued + [f],
           loopPushing := s.pc.Calling?, silent := s.silent || s.pc.Outside?)
      case LoopWakeup => s.(counter := s.counter + 1, loopPushing := false)
      case Quit(tid) => s.(quit := true, quitting := s.quitting + {tid})
      case QuitWakeup(tid) => s.(counter := s.counter + 1, quitting := s.quitting - {tid})
      case LoopQuit => s.(quit := true)
      case StartLoop => s.(quit := false, pc := Checking)
      case Check => s.(pc := if s.quit then Outside else Polling)
      case PollReturns(active) => s.(pc := Handling(active))
      case ReadWakeup => s.(counter := 0, pc := Handling(false))
      case Swap => s.(pc := Calling(s.pending, 0), pending := [], silent := false)
      case CallNext =>
        s.(executed := s.executed + [s.pc.functors[s.pc.next]], pc := Calling(s.pc.functors, s.pc.next + 1))
      case FinishCalls => s.(pc := Checking)
  }

  function Run(s: State, steps: seq<Step>): State
    decreases |steps|
  {
    if steps == [] then s else Run(Apply(s, steps[0]), steps[1..])
  }

  lemma {:induction false} RunConcat(s: State, a: seq<Step>, b: seq<Step>)
    ensures Run(s, a + b) == Run(Run(s, a), b)
    decreases |a|
  {
    if a == [] {
      assert a + b == b;
    } else {
      assert (a + b)[1..] == a[1..] + b;
      RunConcat(Apply(s, a[0]), a[1..], b);
    }
  }

  // ---------- Invariant ----------

  /** The poll will return at once, or some thread is about to make it. */
  predicate WakeupComing(s: State) {
    s.counter > 0 || s.pushing != {} || s.loopPushing
  }

  /** The functors taken by the loop and not called yet. */
  function Remaining(s: State): seq<Functor> {
    if s.pc.Calling? && s.pc.next <= |s.pc.functors| then s.pc.functors[s.pc.next..] else []
  }

  predicate Inv(s: State) {
    && (s.pc.Calling? ==> s.pc.next <= |s.pc.functors|)
    && (s.loopPushing ==> s.pc.Calling?)
    && (!s.pc.Handling? && s.pending != [] ==> WakeupComing(s) || s.silent)
    && (s.pc.Polling? && s.quit ==> s.counter > 0 || s.quitting != {})
    && Ordered(s)
  }

  predicate Ordered(s: State) {
    s.executed + Remaining(s) + s.pending == s.queued
  }

  lemma StepOrder(s: State, step: Step)
    requires Inv(s)
    ensures Ordered(Apply(s, step))
  {
    if Enabled(s, step) {
      match step
      case Push(_, f) => Regroup(s.executed, Remaining(s), s.pending, f);
      case LoopPush(f) => Regroup(s.executed, Remaining(s), s.pending, f);
      case Swap => Regroup(s.executed, [], s.pending, 0);
      case CallNext =>
        var rest := s.pc.functors[s.pc.next..];
        assert rest == [s.pc.functors[s.pc.next]] + s.pc.functors[s.pc.next + 1..];
        assert s.executed + rest == s.executed + [s.pc.functors[s.pc.next]] + s.pc.functors[s.pc.next + 1..];
      case _ =>
    }
  }

  lemma Regroup(executed: seq<Functor>, remaining: seq<Functor>, pending: seq<Functor>, f: Functor)
    ensures executed + remaining + (pending + [f]) == executed + remaining + pending + [f]
    ensures executed + [] + pending == executed + pending + []
  {
  }

  lemma StepInv(s: State, step: Step)
    requires Inv(s)
    ensures Inv(Apply(s, step))
  {
    StepOrder(s, step);
    hide Ordered;
  }

  lemma {:induction false} RunInv(s: State, steps: seq<Step>)
    requires Inv(s)
    ensures Inv(Run(s, steps))
    decreases |steps|
  {
    if steps != [] {
      StepInv(s, steps[0]);
      RunInv(Apply(s, steps[0]), steps[1..]);
    }
  }

  // ---------- Results ----------

  /** Every functor runs at most once and in queue order: those executed, under way and pending make up those queued. */
  lemma QueueOrder(steps: seq<Step>)
    ensures var s := Run(Init(), steps);
            s.executed + Remaining(s) + s.pending == s.queued && s.executed <= s.queued
  {
    RunInv(Init(), steps);
    var s := Run(Init(), steps);
    hide Run, Remaining;
    assert s.executed + Remaining(s) + s.pending == s.executed + (Remaining(s) + s.pending);
  }

  /** The loop blocks in poll beside a pending functor, and no `queueInLoop` is about to wake it. */
  predicate Unwoken(s: State) {
    s.pc.Polling? && s.pending != [] && !WakeupComing(s)
  }

  /** And no `quit` is about to wake it either: the functor waits for the poll to time out. */
  predicate Lost(s: State) {
    Unwoken(s) && s.quitting == {}
  }

  /** The loop thread queues a functor while it is not in `loop()`. */
  predicate QueuesOutside(s: State, step: Step) {
    step.LoopPush? && s.pc.Outside? && Enabled(s, step)
  }

  /** Some step of the run queues a functor in the loop thread outside `loop()`. */
  predicate RunQueuesOutside(s: State, steps: seq<Step>)
    decreases |steps|
  {
    steps != [] && (QueuesOutside(s, steps[0]) || RunQueuesOutside(Apply(s, steps[0]), steps[1..]))
  }

  lemma {:induction false} NeverSilent(s: State, steps: seq<Step>)
    requires !s.silent && !RunQueuesOutside(s, steps)
    ensures !Run(s, steps).silent
    decreases |steps|
  {
    if steps != [] {
      NeverSilent(Apply(s, steps[0]), steps[1..]);
    }
  }

  /** No functor wakeup is lost in any run whose loop thread queues nothing before `loop()` starts. */
  lemma NoLostWakeup(steps: seq<Step>)
    requires !RunQueuesOutside(Init(), steps)
    ensures !Unwoken(Run(Init(), steps))
  {
    RunInv(Init(), steps);
    NeverSilent(Init(), steps);
  }

  /**
   A functor queued in the loop thread outside `loop()` is lost in some run, before it is taken, if and
   only if no other thread has written a wakeup or is about to, for a functor or to quit.
   */
  lemma QueueBeforeLoop(s: State, f: Functor)
    requires s.pc.Outside? && !s.loopPushing
    ensures (exists steps :: Swap !in steps && Lost(Run(s, [LoopPush(f)] + steps)))
       <==> s.counter == 0 && s.pushing == {} && s.quitting == {}
  {
    var s1 := Apply(s, LoopPush(f));
    forall steps ensures Run(s, [LoopPush(f)] + steps) == Run(s1, steps) {
      assert ([LoopPush(f)] + steps)[1..] == steps;
    }
    if s.counter == 0 && s.pushing == {} && s.quitting == {} {
      StartsPolling(s1);
      assert Swap !in [StartLoop, Check];
      assert Lost(Run(s, [LoopPush(f)] + [StartLoop, Check]));
    } else {
      forall steps | Swap !in steps ensures !Lost(Run(s1, steps)) {
        AwakeUntilSwap(s1, steps);
      }
    }
  }

  lemma StartsPolling(s: State)
    requires s.pc.Outside? && !s.loopPushing
    ensures Run(s, [StartLoop, Check]) == s.(quit := false, pc := Polling)
  {
    assert [StartLoop, Check][1..] == [Check] && [Check][1..] == [];
    var s1 := Apply(s, StartLoop);
    assert Run(s1, [Check]) == Run(Apply(s1, Check), []);
  }

  /** The next poll returns at once, or the loop is already past it. */
  predicate Awake(s: State) {
    s.counter > 0 || s.pushing != {} || s.quitting != {} || s.pc.Handling?
  }

  lemma {:induction false} AwakeUntilSwap(s: State, steps: seq<Step>)
    requires Awake(s) && Swap !in steps
    ensures Awake(Run(s, steps))
    decreases |steps|
  {
    if steps != [] {
      assert steps[0] in steps && forall step <- steps[1..] :: step in steps;
      assert Awake(Apply(s, steps[0]));
      hide Apply, Awake;
      AwakeUntilSwap(Apply(s, steps[0]), steps[1..]);
    }
  }

  /** From a poll that returns, one pass of the loop body takes every functor pending by then. */
  lemma OnePassTakesAll(s: State, active: bool)
    requires Inv(s) && Enabled(s, PollReturns(active))
    ensures var steps := [PollReturns(active)] + (if active then [ReadWakeup] else []) + [Swap];
            var s' := Run(s, steps);
            s'.pc == Calling(s.pending, 0) && s'.pending == []
  {
    hide Inv, Run;
    var s1 := Apply(s, PollReturns(active));
    RunOne(s, PollReturns(active));
    if active {
      RunOne(s1, ReadWakeup);
      RunConcat(s, [PollReturns(active)], [ReadWakeup]);
      RunOne(Apply(s1, ReadWakeup), Swap);
      RunConcat(s, [PollReturns(active)] + [ReadWakeup], [Swap]);
    } else {
      assert [PollReturns(active)] + [] == [PollReturns(active)];
      RunOne(s1, Swap);
      RunConcat(s, [PollReturns(active)], [Swap]);
    }
  }

  /** A write to the eventfd. */
  predicate Wakes(s: State, step: Step) {
    Enabled(s, step) && (step.Wakeup? || step.LoopWakeup? || step.QuitWakeup?)
  }

  /** The writes to the eventfd since it was last read, and `before` that if it was not. */
  function SinceRead(s: State, steps: seq<Step>, before: nat): nat
    decreases |steps|
  {
    if steps == [] then before
    else
      var step := steps[0];
      SinceRead(Apply(s, step), steps[1..],
                if step.ReadWakeup? && Enabled(s, step) then 0 else if Wakes(s, step) then before + 1 else before)
  }

  /** In every run the eventfd counts the wakeups since it was last read. */
  lemma CounterIsWakeups(steps: seq<Step>)
    ensures Run(Init(), steps).counter == SinceRead(Init(), steps, 0)
  {
    CountsWakeups(Init(), steps);
  }

  lemma {:induction false} CountsWakeups(s: State, steps: seq<Step>)
    ensures Run(s, steps).counter == SinceRead(s, steps, s.counter)
    decreases |steps|
  {
    if steps != [] {
      CountsWakeups(Apply(s, steps[0]), steps[1..]);
    }
  }

  /** The eventfd is written at some step of the run. */
  predicate Woken(s: State, steps: seq<Step>) {
    exists k :: 0 <= k < |steps| && Wakes(Run(s, steps[..k]), steps[k])
  }

  /** After the eventfd is read, a later poll returns for it again if and only if it has been written since. */
  lemma WakesAgainIff(s: State, steps: seq<Step>)
    requires Enabled(s, ReadWakeup) && ReadWakeup !in steps
    requires Run(Apply(s, ReadWakeup), steps).pc.Polling?
    ensures var s' := Apply(s, ReadWakeup);
            Enabled(Run(s', steps), PollReturns(true)) <==> Woken(s', steps)
  {
    var s' := Apply(s, ReadWakeup);
    assert s'.counter == 0;
    hide Apply, Run, Woken;
    PositiveIff(s', steps);
  }

  lemma {:induction false} PositiveIff(s: State, steps: seq<Step>)
    requires ReadWakeup !in steps
    ensures Run(s, steps).counter > 0
            <==> s.counter > 0 || Woken(s, steps)
    decreases |steps|
  {
    if steps != [] {
      var before, last := steps[..|steps| - 1], steps[|steps| - 1];
      assert steps == before + [last];
      assert last in steps && ReadWakeup !in before;
      PositiveIff(s, before);
      RunConcat(s, before, [last]);
      RunOne(Run(s, before), last);
      StepCounts(Run(s, before), last);
      forall k | 0 <= k < |before| ensures steps[..k] == before[..k] && steps[k] == before[k] {
      }
      hide Run, Apply, Wakes;
      if k :| 0 <= k < |before| && Wakes(Run(s, before[..k]), before[k]) {
        assert Wakes(Run(s, steps[..k]), steps[k]);
      }
      if Wakes(Run(s, before), last) {
        assert Wakes(Run(s, steps[..|before|]), steps[|before|]);
      }
    }
  }

  lemma StepCounts(s: State, step: Step)
    requires step != ReadWakeup
    ensures Apply(s, step).counter == s.counter + if Wakes(s, step) then 1 else 0
  {
  }

  /** Once `quit` is set, the loop never blocks in poll without a wakeup on its way. */
  lemma QuitIsNoticed(steps: seq<Step>)
    ensures var s := Run(Init(), steps); s.pc.Polling? && s.quit ==> s.counter > 0 || s.quitting != {}
  {
    RunInv(Init(), steps);
  }

  /**
   `quit`, from any thread and in any state, makes the next test of the loop condition leave the loop, in
   every continuation, if and only if `loop()` is already running.
   */
  lemma QuitTakesEffect(s: State, q: Step)
    requires Inv(s) && Enabled(s, q) && (q.Quit? || q.LoopQuit?)
    ensures (forall steps :: Check !in steps && Run(s, [q] + steps).pc.Checking? ==>
                               Apply(Run(s, [q] + steps), Check).pc.Outside?)
       <==> !s.pc.Outside?
  {
    var s1 := Apply(s, q);
    forall steps ensures Run(s, [q] + steps) == Run(s1, steps) {
      assert ([q] + steps)[1..] == steps;
    }
    if s.pc.Outside? {
      RunOne(s1, StartLoop);
      assert Check !in [StartLoop];
      assert Run(s, [q] + [StartLoop]).pc.Checking? && !Run(s, [q] + [StartLoop]).quit;
    } else {
      forall steps | Check !in steps ensures Run(s1, steps).quit {
        QuitStays(s1, steps);
      }
    }
  }

  lemma RunOne(s: State, step: Step)
    ensures Run(s, [step]) == Apply(s, step)
  {
    assert Run(s, [step]) == Run(Apply(s, step), []);
  }

  lemma {:induction false} QuitStays(s: State, steps: seq<Step>)
    requires s.quit && !s.pc.Outside? && Check !in steps
    ensures Run(s, steps).quit && !Run(s, steps).pc.Outside?
    decreases |steps|
  {
    if steps != [] {
      assert steps[0] in steps && forall step <- steps[1..] :: step in steps;
      assert Apply(s, steps[0]).quit && !Apply(s, steps[0]).pc.Outside?;
      hide Apply;
      QuitStays(Apply(s, steps[0]), steps[1..]);
    }
  }

  /** A `quit` that comes before `loop()` is forgotten. */
  lemma QuitBeforeLoopIsForgotten(tid: nat)
    ensures var s := Run(Init(), [Quit(tid), QuitWakeup(tid), StartLoop, Check]); s.pc.Polling? && !s.quit
  {
    var a, b, c, d := Quit(tid), QuitWakeup(tid), StartLoop, Check;
    var s1 := Apply(Init(), a);
    var s2 := Apply(s1, b);
    var s3 := Apply(s2, c);
    assert [a, b, c, d][1..] == [b, c, d] && [b, c, d][1..] == [c, d] && [c, d][1..] == [d] && [d][1..] == [];
    assert Run(s3, [d]) == Run(Apply(s3, d), []);
    assert Run(s2, [c, d]) == Run(s3, [d]);
    assert Run(s1, [b, c, d]) == Run(s2, [c, d]);
    assert Run(Init(), [a, b, c, d]) == Run(s1, [b, c, d]);
  }
}
