/**
 The life of a pool's threads around the monitor queue: a worker tests `running_`, and then takes; with a
 functor in hand it runs it, and the functor may itself call `run` on the pool; then it tests again.
 */
module ThreadPoolState {
  import opened Options
  import opened MonitorQueue

  /**
   `threads` are the pool's own; `workers` those still inside `runInThread`, of which `inTake` are past
   their test of `running_` and have not come back from `take`, and `inTask` run a functor.
   */
  datatype Pool<T> = Pool(
    monitor: State<T>,
    threads: set<nat>,
    workers: set<nat>,
    inTake: set<nat>,
    inTask: set<nat>)

  /** `Test`: a worker, its functor finished, looks at `running_`; it goes on to `take`, or leaves. */
  datatype PoolStep<T> = Queue(step: Step<T>) | Test(worker: nat)

  /** The thread is inside `run`, waiting for room. */
  predicate InRun<T>(p: Pool<T>, tid: nat) {
    tid in p.monitor.putters.asleep || tid in p.monitor.putters.woken
  }

  /** Threads from outside put, and so do functors; only a worker past its test takes. */
  predicate PoolEnabled<T>(p: Pool<T>, step: PoolStep<T>) {
    match step
    case Queue(Put(tid, item, wake)) =>
      (tid !in p.threads || tid in p.inTask) && MonitorQueue.Enabled(p.monitor, Put(tid, item, wake))
    case Queue(Take(tid, wake)) => tid in p.inTake && MonitorQueue.Enabled(p.monitor, Take(tid, wake))
    case Queue(s) => MonitorQueue.Enabled(p.monitor, s)
    case Test(worker) => worker in p.workers && worker !in p.inTake && !InRun(p, worker)
  }

  /** `take` ends unless it sleeps; with an item, the functor begins. */
  function AfterTake<T>(p: Pool<T>, tid: nat, wake: nat): Pool<T> {
    var p' := p.(monitor := TakeStep(p.monitor, tid, wake));
    if p.monitor.queue != [] then p'.(inTake := p.inTake - {tid}, inTask := p.inTask + {tid})
    else if p.monitor.running then p'
    else p'.(inTake := p.inTake - {tid})
  }

  /** A pool without threads runs the functor there and then. */
  function AfterPut<T>(p: Pool<T>, tid: nat, item: T, wake: nat): Pool<T> {
    if p.threads == {} then
      p.(monitor := p.monitor.(put := p.monitor.put + [item], taken := p.monitor.taken + [item]))
    else p.(monitor := PutStep(p.monitor, tid, item, wake))
  }

  function AfterTest<T>(p: Pool<T>, worker: nat): Pool<T> {
    if p.monitor.running then p.(inTake := p.inTake + {worker}, inTask := p.inTask - {worker})
    else p.(workers := p.workers - {worker}, inTask := p.inTask - {worker})
  }

  function PoolApply<T>(p: Pool<T>, step: PoolStep<T>): Pool<T> {
    if !PoolEnabled(p, step) then p
    else
      match step
      case Queue(Take(tid, wake)) => AfterTake(p, tid, wake)
      case Queue(Put(tid, item, wake)) => AfterPut(p, tid, item, wake)
      case Queue(s) => p.(monitor := MonitorQueue.Apply(p.monitor, s))
      case Test(worker) => AfterTest(p, worker)
  }

  function PoolRun<T>(p: Pool<T>, steps: seq<PoolStep<T>>): Pool<T>
    decreases |steps|
  {
    if steps == [] then p else PoolRun(PoolApply(p, steps[0]), steps[1..])
  }

  /** `start` with a bound on the queue; 0 stands for none. */
  function Start<T>(maxQueueSize: nat, threads: set<nat>): Pool<T> {
    Pool(Init(if maxQueueSize > 0 then Some(maxQueueSize) else None), threads, threads, {}, {})
  }

  lemma {:induction false} PoolRunConcat<T>(p: Pool<T>, a: seq<PoolStep<T>>, b: seq<PoolStep<T>>)
    ensures PoolRun(p, a + b) == PoolRun(PoolRun(p, a), b)
    decreases |a|
  {
    hide PoolApply;
    if a == [] {
      assert a + b == b;
    } else {
      assert (a + b)[1..] == a[1..] + b;
      PoolRunConcat(PoolApply(p, a[0]), a[1..], b);
    }
  }

  lemma PoolRunOne<T>(p: Pool<T>, step: PoolStep<T>)
    ensures PoolRun(p, [step]) == PoolApply(p, step)
  {
    assert PoolRun(p, [step]) == PoolRun(PoolApply(p, step), []);
  }

  // ---------- Invariant ----------

  /** Takers are workers inside `take`; a worker inside `run` runs a functor; a bound leaves room for one. */
  predicate Members<T>(p: Pool<T>) {
    && p.workers <= p.threads
    && p.inTake <= p.workers && p.inTask <= p.workers && p.inTake !! p.inTask
    && p.monitor.takers.asleep + p.monitor.takers.woken <= p.inTake
    && (forall tid <- p.workers :: InRun(p, tid) ==> tid in p.inTask)
    && p.monitor.bound != Some(0)
    && (p.threads == {} ==> p.monitor.queue == [])
  }

  /** What the queue of a pool does is what the monitor queue does, when the pool has threads. */
  lemma PoolMonitor<T>(p: Pool<T>, step: PoolStep<T>)
    requires p.threads != {}
    ensures var m := PoolApply(p, step).monitor;
            m == p.monitor || (step.Queue? && m == MonitorQueue.Apply(p.monitor, step.step))
  {
  }

  lemma InlineInv<T>(p: Pool<T>, step: PoolStep<T>)
    requires Inv(p.monitor) && Fifo(p.monitor) && Members(p) && p.threads == {}
    ensures Inv(PoolApply(p, step).monitor) && Fifo(PoolApply(p, step).monitor)
    ensures PoolApply(p, step).monitor.bound == p.monitor.bound
  {
    if step.Queue? && !step.step.Put? && !step.step.Take? {
      StepInv(p.monitor, step.step);
    }
  }

  lemma PoolStepInv<T>(p: Pool<T>, step: PoolStep<T>)
    requires Inv(p.monitor) && Fifo(p.monitor) && Members(p)
    ensures Inv(PoolApply(p, step).monitor) && Fifo(PoolApply(p, step).monitor)
    ensures PoolApply(p, step).monitor.bound == p.monitor.bound
  {
    hide PoolApply, Inv, Fifo, Members;
    if p.threads == {} {
      InlineInv(p, step);
    } else if !step.Queue? {
      PoolMonitor(p, step);
    } else {
      PoolMonitor(p, step);
      StepInv(p.monitor, step.step);
      StepFifo(p.monitor, step.step);
    }
  }

  lemma StepMembers<T>(p: Pool<T>, step: PoolStep<T>)
    requires Members(p)
    ensures Members(PoolApply(p, step))
  {
    if PoolEnabled(p, step) && step.Queue? {
      QueueMembers(p, step.step);
    }
  }

  lemma QueueMembers<T>(p: Pool<T>, step: Step<T>)
    requires Members(p) && PoolEnabled(p, Queue(step))
    ensures Members(PoolApply(p, Queue(step)))
  {
  }

  lemma {:induction false} PoolRunInv<T>(p: Pool<T>, steps: seq<PoolStep<T>>)
    requires Inv(p.monitor) && Fifo(p.monitor) && Members(p)
    ensures var p' := PoolRun(p, steps);
            Inv(p'.monitor) && Fifo(p'.monitor) && Members(p') && p'.monitor.bound == p.monitor.bound
    decreases |steps|
  {
    hide Inv, Fifo, Members, PoolApply;
    if steps != [] {
      PoolStepInv(p, steps[0]);
      StepMembers(p, steps[0]);
      PoolRunInv(PoolApply(p, steps[0]), steps[1..]);
    }
  }

  lemma StartInv<T>(maxQueueSize: nat, threads: set<nat>)
    ensures var p: Pool<T> := Start(maxQueueSize, threads); Inv(p.monitor) && Fifo(p.monitor) && Members(p)
  {
  }

  // ---------- Results ----------

  /**
   Over every run of the pool, functors that call `run` on it included: functors start in the order
   given, and no sleeper is forgotten beside work or room.
   */
  lemma PoolKeepsOrderAndWakeups<T>(maxQueueSize: nat, threads: set<nat>, steps: seq<PoolStep<T>>)
    ensures var m := PoolRun(Start(maxQueueSize, threads), steps).monitor;
            && m.put == m.taken + m.queue
            && (m.takers.asleep != {} ==> m.running && |m.queue| <= |m.takers.woken|)
            && (m.putters.asleep != {} ==> maxQueueSize > 0 && maxQueueSize - |m.queue| <= |m.putters.woken|)
  {
    StartInv<T>(maxQueueSize, threads);
    PoolRunInv(Start(maxQueueSize, threads), steps);
    hide PoolRun;
  }

  /**
   The queue is full, no worker is on its way to take, and none will be: the pool is stopped, or every
   worker left is itself inside `run`.
   */
  predicate Stuck<T>(p: Pool<T>) {
    && p.threads != {} && Full(p.monitor) && p.inTake == {}
    && (!p.monitor.running || forall worker <- p.workers :: InRun(p, worker))
  }

  /** Then it stays so whatever happens: `stop` notifies `notEmpty_` only, and nothing is put or taken again. */
  lemma {:induction false} StuckForGood<T>(p: Pool<T>, steps: seq<PoolStep<T>>)
    requires Stuck(p)
    ensures var p' := PoolRun(p, steps);
            Stuck(p') && p'.monitor.put == p.monitor.put && p'.monitor.taken == p.monitor.taken
    decreases |steps|
  {
    if steps != [] {
      StuckStep(p, steps[0]);
      hide Stuck, PoolApply;
      StuckForGood(PoolApply(p, steps[0]), steps[1..]);
    }
  }

  lemma StuckStep<T>(p: Pool<T>, step: PoolStep<T>)
    requires Stuck(p)
    ensures var p' := PoolApply(p, step);
            Stuck(p') && p'.monitor.put == p.monitor.put && p'.monitor.taken == p.monitor.taken
  {
  }

  /** In every run of the pool, some continuation gets another functor in exactly unless the pool is stuck. */
  lemma QueuesIff<T>(maxQueueSize: nat, threads: set<nat>, steps: seq<PoolStep<T>>, task: T)
    ensures var p := PoolRun(Start(maxQueueSize, threads), steps);
            (exists more :: |PoolRun(p, more).monitor.put| > |p.monitor.put|) <==> !Stuck(p)
  {
    StartInv<T>(maxQueueSize, threads);
    PoolRunInv(Start(maxQueueSize, threads), steps);
    var p := PoolRun(Start(maxQueueSize, threads), steps);
    hide Stuck, PoolRun, Inv, Members;
    if Stuck(p) {
      forall more ensures PoolRun(p, more).monitor.put == p.monitor.put {
        StuckForGood(p, more);
      }
    } else {
      var more := GetsIn(p, task);
    }
  }

  /** A thread that is nowhere in the pool. */
  lemma Newcomer(busy: set<nat>) returns (tid: nat)
    ensures forall t <- busy :: t < tid
  {
    if busy == {} {
      tid := 0;
    } else {
      var t :| t in busy;
      var rest := Newcomer(busy - {t});
      tid := if t < rest then rest else t + 1;
      assert forall u <- busy :: u == t || u in busy - {t};
    }
  }

  /**
   Without a spurious wakeup: if the queue is full, a worker that is awake inside `take`, or gets there by
   its next test, makes room; then a newcomer puts its functor.
   */
  lemma GetsIn<T>(p: Pool<T>, task: T) returns (more: seq<PoolStep<T>>)
    requires Inv(p.monitor) && Members(p) && !Stuck(p)
    ensures |PoolRun(p, more).monitor.put| > |p.monitor.put|
  {
    var room := MakesRoom(p);
    PoolRunKeeps(p, room);
    var p1 := PoolRun(p, room);
    hide Stuck, Inv;
    var put := PutsNow(p1, task);
    more := room + [put];
    PoolRunConcat(p, room, [put]);
    PoolRunOne(p1, put);
  }

  lemma {:induction false} PoolRunKeeps<T>(p: Pool<T>, steps: seq<PoolStep<T>>)
    requires Members(p)
    ensures Members(PoolRun(p, steps)) && |PoolRun(p, steps).monitor.put| >= |p.monitor.put|
    decreases |steps|
  {
    if steps != [] {
      StepMembers(p, steps[0]);
      PutGrows(p, steps[0]);
      hide Members, PoolApply;
      PoolRunKeeps(PoolApply(p, steps[0]), steps[1..]);
    }
  }

  lemma PutGrows<T>(p: Pool<T>, step: PoolStep<T>)
    ensures |PoolApply(p, step).monitor.put| >= |p.monitor.put|
  {
  }

  lemma MakesRoom<T>(p: Pool<T>) returns (room: seq<PoolStep<T>>)
    requires Inv(p.monitor) && Members(p) && !Stuck(p)
    ensures !Full(PoolRun(p, room).monitor)
  {
    room := [];
    if Full(p.monitor) {
      var p1, worker := p, 0;
      if p.inTake != {} {
        worker := AwakeTaker(p);
      } else {
        worker :| worker in p.workers && !InRun(p, worker);
        room := [Test(worker)];
        PoolRunOne(p, Test(worker));
        StepMembers(p, Test(worker));
        PoolStepKeeps(p, worker);
        p1 := PoolApply(p, Test(worker));
      }
      hide Inv, Stuck;
      var take := TakesNow(p1, worker);
      PoolRunConcat(p, room, [take]);
      PoolRunOne(p1, take);
      room := room + [take];
    }
  }

  /** Going on from the test, on a running pool with nobody in `take`. */
  lemma PoolStepKeeps<T>(p: Pool<T>, worker: nat)
    requires Members(p) && p.inTake == {} && p.monitor.running && worker in p.workers && !InRun(p, worker)
    ensures var p1 := PoolApply(p, Test(worker));
            p1.monitor == p.monitor && worker in p1.inTake && worker !in p.monitor.takers.asleep
  {
  }

  /** Beside a full queue some worker inside `take` is awake. */
  lemma AwakeTaker<T>(p: Pool<T>) returns (worker: nat)
    requires Inv(p.monitor) && Members(p) && Full(p.monitor) && p.inTake != {}
    ensures worker in p.inTake && worker !in p.monitor.takers.asleep && !InRun(p, worker)
  {
    var m := p.monitor;
    worker :| worker in p.inTake;
    if m.takers.asleep != {} {
      assert |m.takers.woken| > 0;
      worker :| worker in m.takers.woken;
    }
  }

  lemma TakesNow<T>(p: Pool<T>, worker: nat) returns (take: PoolStep<T>)
    requires Members(p) && Full(p.monitor) && |p.monitor.queue| <= p.monitor.bound.value
    requires worker in p.inTake && worker !in p.monitor.takers.asleep && !InRun(p, worker)
    ensures !Full(PoolApply(p, take).monitor)
  {
    var wake := if p.monitor.putters.asleep == {} then 0 else var t :| t in p.monitor.putters.asleep; t;
    take := Queue(Take(worker, wake));
  }

  lemma PutsNow<T>(p: Pool<T>, task: T) returns (put: PoolStep<T>)
    requires Members(p) && !Full(p.monitor)
    ensures PoolApply(p, put).monitor.put == p.monitor.put + [task]
  {
    var m := p.monitor;
    var tid := Newcomer(p.threads + m.takers.asleep + m.takers.woken + m.putters.asleep + m.putters.woken);
    var wake := if m.takers.asleep == {} then 0 else var t :| t in m.takers.asleep; t;
    assert tid !in p.threads && tid !in m.putters.asleep;
    put := Queue(Put(tid, task, wake));
  }

  // ---------- How a pool gets stuck ----------

  /** One worker, inside its functor 10, and room for one more, taken by functor 11. */
  lemma BusyWorker() returns (steps: seq<PoolStep<int>>)
    ensures var p := PoolRun(Start(1, {1}), steps);
            p == Pool(State([11], Some(1), true, Waiters({}, {}), Waiters({}, {}), [10, 11], [10]), {1}, {1}, {}, {1})
  {
    var p0: Pool<int> := Start(1, {1});
    var a, b, c, d := Queue(Put(2, 10, 0)), Test(1), Queue(Take(1, 0)), Queue(Put(2, 11, 0));
    var p1 := PoolApply(p0, a);
    assert p1 == Pool(State([10], Some(1), true, Waiters({}, {}), Waiters({}, {}), [10], []), {1}, {1}, {}, {});
    var p2 := PoolApply(p1, b);
    assert p2 == p1.(inTake := {1});
    var p3 := PoolApply(p2, c);
    assert p3 == Pool(State([], Some(1), true, Waiters({}, {}), Waiters({}, {}), [10], [10]), {1}, {1}, {}, {1});
    steps := [a, b, c, d];
    RunFour(p0, a, b, c, d);
  }

  lemma RunFour<T>(p: Pool<T>, a: PoolStep<T>, b: PoolStep<T>, c: PoolStep<T>, d: PoolStep<T>)
    ensures PoolRun(p, [a, b, c, d]) == PoolApply(PoolApply(PoolApply(PoolApply(p, a), b), c), d)
  {
    hide PoolApply;
    assert [a, b, c, d][1..] == [b, c, d] && [b, c, d][1..] == [c, d] && [c, d][1..] == [d];
    PoolRunOne(PoolApply(PoolApply(PoolApply(p, a), b), c), d);
    assert PoolRun(PoolApply(PoolApply(p, a), b), [c, d]) == PoolRun(PoolApply(PoolApply(PoolApply(p, a), b), c), [d]);
    assert PoolRun(PoolApply(p, a), [b, c, d]) == PoolRun(PoolApply(PoolApply(p, a), b), [c, d]);
  }

  /** From there `stop` strands a producer: the worker will leave without taking. */
  lemma StopStrandsProducer() returns (steps: seq<PoolStep<int>>)
    ensures var p := PoolRun(Start(1, {1}), steps);
            Stuck(p) && !p.monitor.running && p.workers == {1} && p.monitor.putters.asleep == {3}
  {
    var busy := BusyWorker();
    var a, b := Queue(Put(3, 12, 0)), Queue(Stop);
    var p := PoolRun(Start(1, {1}), busy);
    steps := busy + ([a] + [b]);
    PoolRunConcat(Start(1, {1}), busy, [a] + [b]);
    PoolRunConcat(p, [a], [b]);
    PoolRunOne(p, a);
    PoolRunOne(PoolApply(p, a), b);
    hide PoolRun;
    assert PoolApply(p, a).monitor.putters == Waiters({3}, {});
  }

  /** And a functor that calls `run` on its own running pool can wait for itself. */
  lemma FunctorWaitsForItself() returns (steps: seq<PoolStep<int>>)
    ensures var p := PoolRun(Start(1, {1}), steps);
            Stuck(p) && p.monitor.running && p.monitor.putters.asleep == {1} == p.workers
  {
    var busy := BusyWorker();
    var a := Queue(Put(1, 12, 0));
    var p := PoolRun(Start(1, {1}), busy);
    steps := busy + [a];
    PoolRunConcat(Start(1, {1}), busy, [a]);
    PoolRunOne(p, a);
    hide PoolRun;
    assert PoolApply(p, a).monitor.putters == Waiters({1}, {});
  }
}
