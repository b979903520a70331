/**
 A queue guarded by a mutex and two condition variables, as `BoundedBlockingQueue` and `ThreadPool`
 use it. A step is what one thread does between taking the mutex and giving it up: one pass of a
 wait loop. Signals wake one sleeper; a woken thread competes with newcomers for the mutex.
 */
module MonitorQueue {

  import opened Options

  /** Threads asleep on a condition variable, and threads woken from it that have not run yet. */
  datatype Waiters = Waiters(asleep: set<nat>, woken: set<nat>)

  /** `bound` is None for an unbounded queue; `put` and `taken` are histories. */
  datatype State<T> = State(queue: seq<T>, bound: Option<nat>, running: bool,
                            takers: Waiters, putters: Waiters, put: seq<T>, taken: seq<T>)

  datatype Step<T> =
    | Put(putter: nat, item: T, wakeTaker: nat)
    | Take(taker: nat, wakePutter: nat)
    | WakeTaker(sleepingTaker: nat)
    | WakePutter(sleepingPutter: nat)
    | Stop

  function Init<T>(bound: Option<nat>): State<T> {
    State([], bound, true, Waiters({}, {}), Waiters({}, {}), [], [])
  }

  predicate Full<T>(s: State<T>) {
    s.bound.Some? && |s.queue| >= s.bound.value
  }

  /** A thread that is asleep does nothing, and a thread waiting to take is not one waiting to put. */
  predicate MayPut<T>(s: State<T>, tid: nat) {
    tid !in s.putters.asleep && tid !in s.takers.asleep && tid !in s.takers.woken
  }

  predicate MayTake<T>(s: State<T>, tid: nat) {
    tid !in s.takers.asleep && tid !in s.putters.asleep && tid !in s.putters.woken
  }

  /** A signal wakes a sleeper if there is one. */
  predicate MayWake(w: Waiters, tid: nat) {
    w.asleep == {} || tid in w.asleep
  }

  predicate Enabled<T>(s: State<T>, step: Step<T>) {
    match step
    case Put(tid, _, wake) => MayPut(s, tid) && MayWake(s.takers, wake)
    case Take(tid, wake) => MayTake(s, tid) && MayWake(s.putters, wake)
    case WakeTaker(tid) => tid in s.takers.asleep
    case WakePutter(tid) => tid in s.putters.asleep
    case Stop => true
  }

  /** `notify`, or a wakeup for no reason. */
  function Wake(w: Waiters, tid: nat): Waiters {
    if tid in w.asleep then Waiters(w.asleep - {tid}, w.woken + {tid}) else w
  }

  function WakeAll(w: Waiters): Waiters {
    Waiters({}, w.woken + w.asleep)
  }

  function Sleep(w: Waiters, tid: nat): Waiters {
    Waiters(w.asleep + {tid}, w.woken - {tid})
  }

  function Leave(w: Waiters, tid: nat): Waiters {
    w.(woken := w.woken - {tid})
  }

  function PutStep<T>(s: State<T>, tid: nat, item: T, wake: nat): State<T> {
    if Full(s) then s.(putters := Sleep(s.putters, tid))
    else s.(queue := s.queue + [item], put := s.put + [item],
            putters := Leave(s.putters, tid), takers := Wake(s.takers, wake))
  }

  /** A taker gives up only when the queue is empty and no longer running. */
  function TakeStep<T>(s: State<T>, tid: nat, wake: nat): State<T> {
    if s.queue == [] && s.running then s.(takers := Sleep(s.takers, tid))
    else if s.queue == [] then s.(takers := Leave(s.takers, tid))
    else s.(queue := s.queue[1..], taken := s.taken + [s.queue[0]],
            takers := Leave(s.takers, tid), putters := Wake(s.putters, wake))
  }

  function Apply<T>(s: State<T>, step: Step<T>): State<T> {
    if !Enabled(s, step) then s
    else
      match step
      case Put(tid, item, wake) => PutStep(s, tid, item, wake)
      case Take(tid, wake) => TakeStep(s, tid, wake)
      case WakeTaker(tid) => s.(takers := Wake(s.takers, tid))
      case WakePutter(tid) => s.(putters := Wake(s.putters, tid))
      case Stop => s.(running := false, takers := WakeAll(s.takers))
  }

  function Run<T>(s: State<T>, steps: seq<Step<T>>): State<T>
    decreases |steps|
  {
    if steps == [] then s else Run(Apply(s, steps[0]), steps[1..])
  }

  /** Takers asleep beside items are outnumbered by takers already woken for them; likewise putters and free slots. */
  predicate Inv<T>(s: State<T>) {
    && s.takers.asleep !! s.takers.woken
    && s.putters.asleep !! s.putters.woken
    && (s.takers.asleep != {} ==> s.running && |s.queue| <= |s.takers.woken|)
    && (s.putters.asleep != {} ==> s.bound.Some? && s.bound.value - |s.queue| <= |s.putters.woken|)
    && (s.bound.Some? ==> |s.queue| <= s.bound.value)
  }

  /** Items leave in the order they came, and none is lost or repeated. */
  ghost predicate Fifo<T>(s: State<T>) {
    s.put == s.taken + s.queue
  }

  lemma WokenOne(w: Waiters, tid: nat)
    requires w.asleep !! w.woken && tid in w.asleep
    ensures |Wake(w, tid).woken| == |w.woken| + 1 && Wake(w, tid).asleep !! Wake(w, tid).woken
  {
  }

  lemma LeftOne(w: Waiters, tid: nat)
    ensures |Leave(w, tid).woken| >= |w.woken| - 1
    ensures tid !in w.woken ==> Leave(w, tid) == w
  {
    if tid in w.woken {
    } else {
      assert w.woken - {tid} == w.woken;
    }
  }

  lemma PutInv<T>(s: State<T>, tid: nat, item: T, wake: nat)
    requires Inv(s) && Enabled(s, Put(tid, item, wake))
    ensures Inv(PutStep(s, tid, item, wake))
  {
    LeftOne(s.putters, tid);
    if wake in s.takers.asleep {
      WokenOne(s.takers, wake);
    }
  }

  lemma TakeInv<T>(s: State<T>, tid: nat, wake: nat)
    requires Inv(s) && Enabled(s, Take(tid, wake))
    ensures Inv(TakeStep(s, tid, wake))
  {
    LeftOne(s.takers, tid);
    if wake in s.putters.asleep {
      WokenOne(s.putters, wake);
    }
  }

  lemma StepInv<T>(s: State<T>, step: Step<T>)
    requires Inv(s)
    ensures Inv(Apply(s, step))
  {
    if Enabled(s, step) {
      match step
      case Put(tid, item, wake) => PutInv(s, tid, item, wake);
      case Take(tid, wake) => TakeInv(s, tid, wake);
      case WakeTaker(tid) => WokenOne(s.takers, tid);
      case WakePutter(tid) => WokenOne(s.putters, tid);
      case Stop =>
    }
  }

  lemma StepFifo<T>(s: State<T>, step: Step<T>)
    requires Fifo(s)
    ensures Fifo(Apply(s, step))
  {
  }

  lemma {:induction false} RunInv<T>(s: State<T>, steps: seq<Step<T>>)
    requires Inv(s) && Fifo(s)
    ensures Inv(Run(s, steps)) && Fifo(Run(s, steps))
    decreases |steps|
  {
    if steps != [] {
      StepInv(s, steps[0]);
      StepFifo(s, steps[0]);
      RunInv(Apply(s, steps[0]), steps[1..]);
    }
  }

  // ---------- Results ----------

  /** In every run: first in, first out, and the size never exceeds the bound. */
  lemma FirstInFirstOut<T>(bound: Option<nat>, steps: seq<Step<T>>)
    ensures var s := Run(Init(bound), steps);
            s.put == s.taken + s.queue && (bound.Some? ==> |s.queue| <= bound.value)
  {
    RunInv(Init(bound), steps);
    BoundStays(Init(bound), steps);
  }

  lemma {:induction false} BoundStays<T>(s: State<T>, steps: seq<Step<T>>)
    ensures Run(s, steps).bound == s.bound
    decreases |steps|
  {
    if steps != [] {
      BoundStays(Apply(s, steps[0]), steps[1..]);
    }
  }

  /** In every run: nobody sleeps beside available work unless enough threads are already awake to do it. */
  lemma NoLostWakeup<T>(bound: Option<nat>, steps: seq<Step<T>>)
    ensures var s := Run(Init(bound), steps);
            && (s.takers.asleep != {} ==> s.running && |s.queue| <= |s.takers.woken|)
            && (s.putters.asleep != {} ==> s.bound.Some? && s.bound.value - |s.queue| <= |s.putters.woken|)
  {
    RunInv(Init(bound), steps);
  }

  /** No thread is awake while one sleeps to take and one sleeps to put. */
  predicate Deadlocked<T>(s: State<T>) {
    s.takers.asleep != {} && s.putters.asleep != {} && s.takers.woken == {} && s.putters.woken == {}
  }

  /** The queue cannot deadlock exactly when it can hold something. */
  lemma DeadlockFree(bound: Option<nat>)
    ensures (forall steps: seq<Step<int>> :: !Deadlocked(Run(Init(bound), steps))) <==> bound != Some(0)
  {
    if bound == Some(0) {
      var s0: State<int> := Init(bound);
      var taker, putter := Take(1, 0), Put(2, 7, 1);
      assert Full(s0) && Deadlocked(Apply(Apply(s0, taker), putter));
      var steps := [taker, putter];
      assert steps[1..] == [putter] && [putter][1..] == [];
      assert Run(s0, steps) == Run(Apply(s0, taker), [putter]) == Run(Apply(Apply(s0, taker), putter), []);
      assert exists x: seq<Step<int>> :: Deadlocked(Run(Init(bound), x));
    } else {
      forall steps: seq<Step<int>> ensures !Deadlocked(Run(Init(bound), steps)) {
        RunInv(Init(bound), steps);
        BoundStays(Init(bound), steps);
      }
    }
  }
}
