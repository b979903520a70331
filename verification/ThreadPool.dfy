/**
 `muduo::ThreadPool`: each method is one pass through `run`, `take` or `stop` under the mutex, or the test
 of `running_` between two functors, proved to be the step of `ThreadPoolState` that it names.
 */
module ThreadPools {
  import opened Options
  import opened MonitorQueue
  import opened ThreadPoolState

  class ThreadPool<T> {
    const maxQueueSize: nat
    const threads: set<nat>
    var running: bool
    var queue: seq<T>
    var notEmpty: Waiters
    var notFull: Waiters
    /** Where each thread of the pool is. */
    var workers: set<nat>
    var inTake: set<nat>
    var inTask: set<nat>
    var put: seq<T>
    var taken: seq<T>

    ghost function Model(): Pool<T>
      reads this
    {
      var bound := if maxQueueSize > 0 then Some(maxQueueSize) else None;
      Pool(State(queue, bound, running, notEmpty, notFull, put, taken), threads, workers, inTake, inTask)
    }

    ghost predicate Valid()
      reads this
    {
      Inv(Model().monitor) && Fifo(Model().monitor) && Members(Model())
    }

    /** Construction followed by `start` with these threads. */
    constructor (maxQueueSize: nat, threads: set<nat>)
      ensures Valid() && Model() == Start(maxQueueSize, threads)
      ensures this.maxQueueSize == maxQueueSize && this.threads == threads == workers && running && queue == []
      ensures inTake == {} && inTask == {}
    {
      this.maxQueueSize, this.threads, running := maxQueueSize, threads, true;
      queue, notEmpty, notFull, put, taken := [], Waiters({}, {}), Waiters({}, {}), [], [];
      workers, inTake, inTask := threads, {}, {};
    }

    predicate IsFull()
      reads this
    {
      maxQueueSize > 0 && |queue| >= maxQueueSize
    }

    /** `run`, by a thread from outside or by a functor, from the lock to the unlock. */
    method RunTask(tid: nat, task: T, wake: nat) returns (accepted: bool)
      requires Valid() && PoolEnabled(Model(), Queue(Put(tid, task, wake)))
      modifies this`queue, this`put, this`taken, this`notFull, this`notEmpty
      ensures Valid() && Model() == PoolApply(old(Model()), Queue(Put(tid, task, wake)))
      ensures accepted <==> threads == {} || maxQueueSize == 0 || old(|queue|) < maxQueueSize
      ensures threads == {} ==> queue == old(queue) && taken == old(taken) + [task]
      ensures threads != {} ==> queue == (if accepted then old(queue) + [task] else old(queue)) && taken == old(taken)
      ensures put == if accepted then old(put) + [task] else old(put)
      ensures threads == {} ==> notFull == old(notFull) && notEmpty == old(notEmpty)
      ensures threads != {} ==>
                var (full, empty) := (old(notFull), old(notEmpty));
                && notFull == Waiters(if accepted then full.asleep else full.asleep + {tid}, full.woken - {tid})
                && notEmpty == if accepted && wake in empty.asleep then
                                 Waiters(empty.asleep - {wake}, empty.woken + {wake})
                               else empty
    {
      hide Inv, Fifo, Members;
      PoolStepInv(Model(), Queue(Put(tid, task, wake)));
      StepMembers(Model(), Queue(Put(tid, task, wake)));
      if threads == {} {
        put, taken := put + [task], taken + [task];
        accepted := true;
      } else if IsFull() {
        notFull := Sleep(notFull, tid);
        accepted := false;
      } else {
        queue := queue + [task];
        put := put + [task];
        notFull := Leave(notFull, tid);
        notEmpty := Wake(notEmpty, wake);
        accepted := true;
      }
    }

    /** An unbounded queue has no producer to notify. */
    lemma WakeUnbounded(wake: nat)
      requires Valid() && maxQueueSize == 0
      ensures Wake(notFull, wake) == notFull
    {
    }

    /** `take`: sleeps while the queue is empty and the pool running; may return without a functor. */
    method Take(tid: nat, wake: nat) returns (task: Option<T>, slept: bool)
      requires Valid() && PoolEnabled(Model(), Queue(MonitorQueue.Take(tid, wake)))
      modifies this`queue, this`taken, this`notFull, this`notEmpty, this`inTake, this`inTask
      ensures Valid() && Model() == PoolApply(old(Model()), Queue(MonitorQueue.Take(tid, wake)))
      ensures old(queue) == match task case None => [] case Some(x) => [x] + queue
      ensures slept <==> old(queue) == [] && running
      ensures taken == old(taken) + match task case None => [] case Some(x) => [x]
      ensures inTake == old(inTake) - (if slept then {} else {tid})
      ensures inTask == old(inTask) + if task.Some? then {tid} else {}
      ensures var (full, empty) := (old(notFull), old(notEmpty));
              && notEmpty == Waiters(if slept then empty.asleep + {tid} else empty.asleep, empty.woken - {tid})
              && notFull == if task.Some? && wake in full.asleep then
                              Waiters(full.asleep - {wake}, full.woken + {wake})
                            else full
    {
      hide Inv, Fifo, Members;
      if maxQueueSize == 0 {
        WakeUnbounded(wake);
      }
      PoolStepInv(Model(), Queue(MonitorQueue.Take(tid, wake)));
      StepMembers(Model(), Queue(MonitorQueue.Take(tid, wake)));
      TakeApplies(Model(), tid, wake);
      hide PoolApply, PoolEnabled, Wake, Sleep, Leave;
      task, slept := None, false;
      if |queue| == 0 && running {
        notEmpty := Sleep(notEmpty, tid);
        slept := true;
      } else {
        notEmpty := Leave(notEmpty, tid);
        inTake := inTake - {tid};
        if |queue| != 0 {
          task := Some(queue[0]);
          inTask := inTask + {tid};
          taken := taken + [queue[0]];
          queue := queue[1..];
          if maxQueueSize > 0 {
            notFull := Wake(notFull, wake);
          }
        }
      }
    }

    method Stop()
      requires Valid()
      modifies this`running, this`notEmpty
      ensures Valid() && Model() == PoolApply(old(Model()), Queue(MonitorQueue.Stop))
      ensures !running && notEmpty == Waiters({}, old(notEmpty).woken + old(notEmpty).asleep)
    {
      hide Inv, Fifo, Members;
      PoolStepInv(Model(), Queue(MonitorQueue.Stop));
      StepMembers(Model(), Queue(MonitorQueue.Stop));
      running := false;
      notEmpty := WakeAll(notEmpty);
    }

    /** The loop condition of `runInThread`. */
    method TestRunning(worker: nat) returns (goOn: bool)
      requires Valid() && PoolEnabled(Model(), Test(worker))
      modifies this`workers, this`inTake, this`inTask
      ensures Valid() && Model() == PoolApply(old(Model()), Test(worker))
      ensures goOn == running && inTask == old(inTask) - {worker}
      ensures workers == (if goOn then old(workers) else old(workers) - {worker})
      ensures inTake == if goOn then old(inTake) + {worker} else old(inTake)
    {
      hide Inv, Fifo, Members;
      PoolStepInv(Model(), Test(worker));
      StepMembers(Model(), Test(worker));
      goOn := running;
      inTask := inTask - {worker};
      if goOn {
        inTake := inTake + {worker};
      } else {
        workers := workers - {worker};
      }
    }

    /** One step of any thread; one that is not enabled changes nothing. */
    method Perform(step: PoolStep<T>)
      requires Valid()
      modifies this
      ensures Valid() && Model() == PoolApply(old(Model()), step)
    {
      var enabled := IsEnabled(step);
      hide Inv, Fifo, Members;
      if enabled {
        match step
        case Queue(Put(tid, task, wake)) => var _ := RunTask(tid, task, wake);
        case Queue(Take(tid, wake)) => var _, _ := Take(tid, wake);
        case Queue(Stop) => Stop();
        case Queue(_) => WakeFor(step);
        case Test(worker) => var _ := TestRunning(worker);
      }
    }

    /** A wakeup for no reason. */
    method WakeFor(step: PoolStep<T>)
      requires Valid() && PoolEnabled(Model(), step) && step.Queue? && (step.step.WakeTaker? || step.step.WakePutter?)
      modifies this`notEmpty, this`notFull
      ensures Valid() && Model() == PoolApply(old(Model()), step)
    {
      hide Inv, Fifo, Members;
      PoolStepInv(Model(), step);
      StepMembers(Model(), step);
      match step.step
      case WakeTaker(tid) => notEmpty := Wake(notEmpty, tid);
      case WakePutter(tid) => notFull := Wake(notFull, tid);
    }

    method IsEnabled(step: PoolStep<T>) returns (enabled: bool)
      requires Valid()
      ensures enabled <==> PoolEnabled(Model(), step)
    {
      match step
      case Queue(Put(tid, _, wake)) =>
        enabled := (tid !in threads || tid in inTask)
                   && tid !in notFull.asleep && tid !in notEmpty.asleep && tid !in notEmpty.woken
                   && (notEmpty.asleep == {} || wake in notEmpty.asleep);
      case Queue(Take(tid, wake)) =>
        enabled := tid in inTake && tid !in notEmpty.asleep && tid !in notFull.asleep && tid !in notFull.woken
                   && (notFull.asleep == {} || wake in notFull.asleep);
      case Queue(WakeTaker(tid)) => enabled := tid in notEmpty.asleep;
      case Queue(WakePutter(tid)) => enabled := tid in notFull.asleep;
      case Queue(Stop) => enabled := true;
      case Test(worker) =>
        enabled := worker in workers && worker !in inTake && worker !in notFull.asleep && worker !in notFull.woken;
    }

    method PerformAll(steps: seq<PoolStep<T>>)
      requires Valid()
      modifies this
      ensures Valid() && Model() == PoolRun(old(Model()), steps)
    {
      hide Inv, Fifo, Members, PoolApply;
      ghost var p := Model();
      assert PoolRun(p, steps[..0]) == p;
      for i := 0 to |steps|
        invariant Valid() && Model() == PoolRun(p, steps[..i])
      {
        Perform(steps[i]);
        assert steps[..i + 1] == steps[..i] + [steps[i]];
        PoolRunConcat(p, steps[..i], [steps[i]]);
        PoolRunOne(PoolRun(p, steps[..i]), steps[i]);
      }
      assert steps[..|steps|] == steps;
    }

    /**
     `runInThread`, for as many turns as `meanwhile` tells. Before a turn other threads and the functor in
     hand take the steps given; the turn is the worker's next access to the pool: its test, or a pass
     through `take`, unless it sleeps there or its functor is inside `run`.
     */
    method RunInThread(worker: nat, meanwhile: seq<seq<PoolStep<T>>>) returns (turns: seq<seq<PoolStep<T>>>)
      requires Valid() && worker in workers
      requires forall steps <- meanwhile, step <- steps :: ByOthers(step, worker)
      modifies this
      ensures Valid() && |turns| <= |meanwhile| && Model() == PoolRun(old(Model()), Alternating(meanwhile, turns))
      ensures forall k :: 0 <= k < |turns| ==> TurnAt(old(Model()), worker, meanwhile, turns, k)
      ensures if worker in workers then |turns| == |meanwhile| else !running
    {
      hide Inv, Fifo, Members, PoolApply, PoolRun, ByOthers, IsTurn;
      ghost var p := Model();
      turns := [];
      NoSteps(p);
      for i := 0 to |meanwhile|
        invariant Valid() && worker in workers && |turns| == i
        invariant Model() == PoolRun(p, Alternating(meanwhile, turns))
        invariant forall k :: 0 <= k < i ==> TurnAt(p, worker, meanwhile, turns, k)
      {
        ghost var before, trace := Model(), Alternating(meanwhile, turns);
        PerformAll(meanwhile[i]);
        OthersKeep(before, meanwhile[i], worker);
        PoolRunConcat(p, trace, meanwhile[i]);
        ghost var was := Model();
        var turn := TakeTurn(worker);
        PoolRunConcat(p, trace + meanwhile[i], turn);
        OneMoreTurn(p, worker, meanwhile, turns, turn);
        turns := turns + [turn];
        if worker !in workers {
          return;
        }
      }
    }

    /** The worker's next access to the pool, if it can make one. */
    method TakeTurn(worker: nat) returns (turn: seq<PoolStep<T>>)
      requires Valid() && worker in workers
      modifies this
      ensures Valid() && Model() == PoolRun(old(Model()), turn) && IsTurn(old(Model()), worker, turn)
      ensures worker !in workers ==> !running
    {
      var next := NextTurn(worker);
      var possible := IsEnabled(next);
      turn := [];
      TurnPossible(Model(), worker, next);
      NoSteps(Model());
      hide Inv, Fifo, Members, PoolEnabled, InRun;
      ghost var p := Model();
      if possible {
        Perform(next);
        PoolRunOne(p, next);
        turn := [next];
        if worker !in workers {
          TurnLeaves(p, next, worker);
        }
      }
    }

    /** Inside `take` it takes, waking any one producer; otherwise it tests `running_`. */
    method NextTurn(worker: nat) returns (turn: PoolStep<T>)
      requires Valid() && worker in workers
      ensures if worker in inTake then
                && turn.Queue? && turn.step.Take? && turn.step.taker == worker
                && MayWake(notFull, turn.step.wakePutter)
              else turn == Test(worker)
    {
      if worker in inTake {
        var wake := 0;
        if notFull.asleep != {} {
          wake :| wake in notFull.asleep;
        }
        turn := Queue(MonitorQueue.Take(worker, wake));
      } else {
        turn := Test(worker);
      }
    }
  }

  /** The steps of the others and the turns of a worker, in order. */
  function Alternating<T>(meanwhile: seq<seq<PoolStep<T>>>, turns: seq<seq<PoolStep<T>>>): seq<PoolStep<T>>
    requires |turns| <= |meanwhile|
    decreases |turns|
  {
    if turns == [] then []
    else
      var k := |turns| - 1;
      Alternating(meanwhile, turns[..k]) + meanwhile[k] + turns[k]
  }

  /** In `take` a worker takes unless it sleeps; outside it tests `running_` unless its functor is inside `run`. */
  ghost predicate IsTurn<T>(p: Pool<T>, worker: nat, turn: seq<PoolStep<T>>) {
    if worker in p.inTake then
      if worker in p.monitor.takers.asleep then turn == []
      else
        && |turn| == 1 && turn[0].Queue? && turn[0].step.Take? && turn[0].step.taker == worker
        && MayWake(p.monitor.putters, turn[0].step.wakePutter)
    else turn == if InRun(p, worker) then [] else [Test(worker)]
  }

  /** The `k`-th of the turns is the worker's in the state it finds. */
  ghost predicate TurnAt<T>(p: Pool<T>, worker: nat, meanwhile: seq<seq<PoolStep<T>>>, turns: seq<seq<PoolStep<T>>>,
                            k: nat)
    requires k < |turns| <= |meanwhile|
  {
    IsTurn(PoolRun(p, Alternating(meanwhile, turns[..k]) + meanwhile[k]), worker, turns[k])
  }

  lemma OneMoreTurn<T>(p: Pool<T>, worker: nat, meanwhile: seq<seq<PoolStep<T>>>, turns: seq<seq<PoolStep<T>>>,
                       turn: seq<PoolStep<T>>)
    requires |turns| < |meanwhile|
    requires forall k :: 0 <= k < |turns| ==> TurnAt(p, worker, meanwhile, turns, k)
    requires IsTurn(PoolRun(p, Alternating(meanwhile, turns) + meanwhile[|turns|]), worker, turn)
    ensures Alternating(meanwhile, turns + [turn]) == Alternating(meanwhile, turns) + meanwhile[|turns|] + turn
    ensures forall k :: 0 <= k <= |turns| ==> TurnAt(p, worker, meanwhile, turns + [turn], k)
  {
    hide PoolRun, IsTurn;
    assert (turns + [turn])[..|turns|] == turns;
    forall k | 0 <= k <= |turns| ensures TurnAt(p, worker, meanwhile, turns + [turn], k) {
      if k < |turns| {
        assert TurnAt(p, worker, meanwhile, turns, k);
        assert (turns + [turn])[..k] == turns[..k];
      }
    }
  }

  /** What `NextTurn` finds can be done unless the worker sleeps. */
  lemma TurnPossible<T>(p: Pool<T>, worker: nat, next: PoolStep<T>)
    requires Inv(p.monitor) && Members(p) && worker in p.workers
    requires if worker in p.inTake then
               && next.Queue? && next.step.Take? && next.step.taker == worker
               && MayWake(p.monitor.putters, next.step.wakePutter)
             else next == Test(worker)
    ensures IsTurn(p, worker, if PoolEnabled(p, next) then [next] else [])
  {
  }

  lemma TakeApplies<T>(p: Pool<T>, tid: nat, wake: nat)
    requires PoolEnabled(p, Queue(Take(tid, wake)))
    ensures PoolApply(p, Queue(Take(tid, wake))) == AfterTake(p, tid, wake)
  {
  }

  /** Any step but the worker's own test and `take`. */
  predicate ByOthers<T>(step: PoolStep<T>, worker: nat) {
    match step
    case Queue(Take(tid, _)) => tid != worker
    case Queue(_) => true
    case Test(tid) => tid != worker
  }

  lemma NoSteps<T>(p: Pool<T>)
    ensures PoolRun(p, []) == p
  {
  }

  lemma {:induction false} OthersKeep<T>(p: Pool<T>, steps: seq<PoolStep<T>>, worker: nat)
    requires worker in p.workers && forall step <- steps :: ByOthers(step, worker)
    ensures worker in PoolRun(p, steps).workers
    decreases |steps|
  {
    if steps != [] {
      assert steps[0] in steps && ByOthers(steps[0], worker);
      assert forall step <- steps[1..] :: step in steps;
      assert worker in PoolApply(p, steps[0]).workers;
      hide PoolApply, ByOthers;
      OthersKeep(PoolApply(p, steps[0]), steps[1..], worker);
    }
  }

  /** A worker leaves only by a test that finds the pool stopped. */
  lemma TurnLeaves<T>(p: Pool<T>, turn: PoolStep<T>, worker: nat)
    requires worker in p.workers && worker !in PoolApply(p, turn).workers
    ensures turn == Test(worker) && !PoolApply(p, turn).monitor.running
  {
  }
}
