/** `muduo::BoundedBlockingQueue`: each method is one pass through `put` or `take` under the mutex. */
module BoundedBlockingQueues {
  import opened Options
  import opened MonitorQueue

  class BoundedBlockingQueue<T> {
    const maxSize: nat
    var queue: seq<T>
    var notEmpty: Waiters
    var notFull: Waiters
    var put: seq<T>
    var taken: seq<T>

    ghost function Model(): State<T>
      reads this
    {
      State(queue, Some(maxSize), true, notEmpty, notFull, put, taken)
    }

    ghost predicate Valid()
      reads this
    {
      Inv(Model()) && put == taken + queue
    }

    constructor (maxSize: nat)
      ensures Valid() && Model() == Init(Some(maxSize))
    {
      this.maxSize := maxSize;
      queue, notEmpty, notFull, put, taken := [], Waiters({}, {}), Waiters({}, {}), [], [];
    }

    /** `put` from the lock to the unlock; `done` is false when the thread went to sleep. */
    method Put(tid: nat, x: T, wake: nat) returns (done: bool)
      requires Valid() && MayPut(Model(), tid) && MayWake(notEmpty, wake)
      modifies this
      ensures Valid() && Model() == Apply(old(Model()), MonitorQueue.Put(tid, x, wake))
      ensures done <==> |old(queue)| < maxSize
      ensures queue == if done then old(queue) + [x] else old(queue)
      ensures put == (if done then old(put) + [x] else old(put)) && taken == old(taken)
      ensures var (full, empty) := (old(notFull), old(notEmpty));
              && notFull == Waiters(if done then full.asleep else full.asleep + {tid}, full.woken - {tid})
              && notEmpty == if done && wake in empty.asleep then
                               Waiters(empty.asleep - {wake}, empty.woken + {wake})
                             else empty
    {
      PutInv(Model(), tid, x, wake);
      assert Inv(Model()) && |queue| <= maxSize;
      PutApplies(Model(), tid, x, wake);
      hide Inv, Apply, MayPut, MayWake;
      if |queue| == maxSize {
        notFull := Sleep(notFull, tid);
        done := false;
      } else {
        assert |queue| < maxSize;
        queue := queue + [x];
        put := put + [x];
        notFull := Leave(notFull, tid);
        notEmpty := Wake(notEmpty, wake);
        done := true;
      }
    }

    method Take(tid: nat, wake: nat) returns (front: Option<T>)
      requires Valid() && MayTake(Model(), tid) && MayWake(notFull, wake)
      modifies this
      ensures Valid() && Model() == Apply(old(Model()), MonitorQueue.Take(tid, wake))
      ensures old(queue) == match front case None => [] case Some(x) => [x] + queue
      ensures front.None? ==> queue == []
      ensures taken == old(taken) + (match front case None => [] case Some(x) => [x]) && put == old(put)
      ensures var (full, empty) := (old(notFull), old(notEmpty));
              && notEmpty == Waiters(if front.Some? then empty.asleep else empty.asleep + {tid}, empty.woken - {tid})
              && notFull == if front.Some? && wake in full.asleep then
                              Waiters(full.asleep - {wake}, full.woken + {wake})
                            else full
    {
      TakeInv(Model(), tid, wake);
      TakeApplies(Model(), tid, wake);
      hide Inv, Apply, MayTake, MayWake;
      if |queue| == 0 {
        notEmpty := Sleep(notEmpty, tid);
        front := None;
      } else {
        front := Some(queue[0]);
        taken := taken + [queue[0]];
        queue := queue[1..];
        notEmpty := Leave(notEmpty, tid);
        notFull := Wake(notFull, wake);
      }
    }
  }

  lemma PutApplies<T>(s: State<T>, tid: nat, x: T, wake: nat)
    requires MayPut(s, tid) && MayWake(s.takers, wake)
    ensures Apply(s, Put(tid, x, wake)) == PutStep(s, tid, x, wake)
  {
  }

  lemma TakeApplies<T>(s: State<T>, tid: nat, wake: nat)
    requires MayTake(s, tid) && MayWake(s.putters, wake)
    ensures Apply(s, Take(tid, wake)) == TakeStep(s, tid, wake)
  {
  }
}
