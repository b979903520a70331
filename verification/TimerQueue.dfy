/**
 `muduo::net::TimerQueue` over a store of timers, proved against the state machine of `TimerState`;
 each method performs the steps its postcondition names, so every result about runs holds of it.
 */
module TimerQueues {
  import opened TimerEntries
  import opened TimerState
  import opened TimerRuns

  /** What a callback, the clock and other threads may do while `handleRead` calls back. */
  predicate Reentrant(step: Step) {
    step.Construct? || step.Insert? || step.Cancel? || step.Tick? || step.Fire?
  }

  /** The first `n` callbacks of a batch, each followed by what happened during it. */
  function BatchSteps(n: nat, script: seq<seq<Step>>): seq<Step> {
    if n == 0 then []
    else BatchSteps(n - 1, script) + ([RunNext] + (if n - 1 < |script| then script[n - 1] else []))
  }

  function ResetSteps(n: nat): seq<Step> {
    if n == 0 then [] else ResetSteps(n - 1) + [ResetOne]
  }

  class TimerQueue {
    var heap: map<nat, Timer>
    var numCreated: nat
    var pending: set<nat>
    var timers: seq<Entry>
    var activeTimers: set<TimerId>
    var callingExpiredTimers: bool
    var cancelingTimers: set<TimerId>
    /** The local variables of `handleRead` while it runs. */
    var phase: Phase
    var timerfd: Alarm
    var clock: int
    var batches: nat
    var ran: seq<Ran>
    var freed: seq<nat>

    ghost function Model(): State
      reads this
    {
      State(heap, numCreated, pending, timers, activeTimers, phase, cancelingTimers, timerfd, clock,
            batches, ran, freed)
    }

    ghost predicate Valid()
      reads this
    {
      Inv(Model()) && callingExpiredTimers == phase.Calling?
    }

    constructor (clock: int)
      requires clock > 0
      ensures Valid() && Model() == Init(clock)
      ensures heap == map[] && numCreated == 0 && timers == [] && activeTimers == {} && timerfd == Disarmed
      ensures !callingExpiredTimers && phase == Idle && this.clock == clock
    {
      heap, numCreated, pending, timers, activeTimers := map[], 0, {}, [], {};
      callingExpiredTimers, cancelingTimers, phase := false, {}, Idle;
      timerfd, this.clock, batches, ran, freed := Disarmed, clock, 0, [], [];
      new;
      InitInv(clock);
    }

    /** `new Timer`, at an address the allocator picks. */
    method NewTimer(addr: nat, when: int, interval: nat, repeat: bool) returns (id: TimerId)
      requires Valid() && Enabled(Model(), Construct(addr, when, interval, repeat))
      modifies this
      ensures Valid() && Model() == Apply(old(Model()), Construct(addr, when, interval, repeat))
      ensures id == TimerId(addr, old(numCreated) + 1) && Genuine(Model(), id)
      ensures heap == old(heap)[addr := Timer(when, interval, repeat, id.sequence)]
      ensures pending == old(pending) + {addr} && timers == old(timers) && activeTimers == old(activeTimers)
    {
      hide Inv, Genuine;
      StepInv(Model(), Construct(addr, when, interval, repeat));
      ConstructGenuine(Model(), addr, when, interval, repeat);
      numCreated := numCreated + 1;
      heap := heap[addr := Timer(when, interval, repeat, numCreated)];
      pending := pending + {addr};
      id := TimerId(addr, numCreated);
    }

    /** `insert`: both indexes gain the timer, in the same step. */
    method Insert(addr: nat) returns (earliestChanged: bool)
      requires Inv(Model()) && addr in heap && !Queued(Model(), addr)
      modifies this`timers, this`activeTimers
      ensures Model() == InsertTimer(old(Model()), addr)
      ensures earliestChanged == BecomesEarliest(old(Model()), heap[addr].expiration)
      ensures |timers| == |activeTimers| == old(|timers|) + 1
      ensures forall e :: e in timers <==> e in old(timers) || e == Entry(heap[addr].expiration, addr)
      ensures activeTimers == old(activeTimers) + {TimerId(addr, heap[addr].sequence)}
    {
      SameSize(Model());
      assert |timers| == |activeTimers|;
      earliestChanged := false;
      var when := heap[addr].expiration;
      if |timers| == 0 || when < timers[0].when {
        earliestChanged := true;
      }
      assert Entry(when, addr) !in timers;
      timers := TimerEntries.Insert(timers, Entry(when, addr));
      assert TimerId(addr, heap[addr].sequence) !in activeTimers;
      activeTimers := activeTimers + {TimerId(addr, heap[addr].sequence)};
    }

    method ResetTimerfd(when: int)
      modifies this`timerfd
      ensures timerfd == Armed(clock, if when < clock + 100 then clock + 100 else when)
      ensures InTime(timerfd, when)
    {
      timerfd := Arm(when, clock);
    }

    method AddTimerInLoop(addr: nat)
      requires Valid() && Enabled(Model(), TimerState.Insert(addr))
      modifies this
      ensures Valid() && Model() == Apply(old(Model()), TimerState.Insert(addr))
      ensures heap == old(heap) && pending == old(pending) - {addr} && addr in heap
      ensures activeTimers == old(activeTimers) + {TimerId(addr, heap[addr].sequence)}
      ensures forall e :: e in timers <==> e in old(timers) || e == Entry(heap[addr].expiration, addr)
      ensures var when := heap[addr].expiration;
              timerfd == if old(timers) == [] || when < old(timers)[0].when
                         then Armed(clock, if when < clock + 100 then clock + 100 else when) else old(timerfd)
    {
      hide Inv, Queued;
      StepInv(Model(), TimerState.Insert(addr));
      PendingNotQueued(Model(), addr);
      var earliestChanged := Insert(addr);
      pending := pending - {addr};
      if earliestChanged {
        ResetTimerfd(heap[addr].expiration);
      }
    }

    /** `addTimer` called in the loop thread: constructed and inserted at once. */
    method AddTimer(addr: nat, when: int, interval: nat, repeat: bool) returns (id: TimerId)
      requires Valid() && !phase.Resetting? && Enabled(Model(), Construct(addr, when, interval, repeat))
      modifies this
      ensures Valid() && id in activeTimers && Genuine(Model(), id)
      ensures heap == old(heap)[addr := Timer(when, interval, repeat, id.sequence)]
      ensures id == TimerId(addr, old(numCreated) + 1) && activeTimers == old(activeTimers) + {id}
      ensures Model() == Run(old(Model()), [Construct(addr, when, interval, repeat), TimerState.Insert(addr)])
    {
      hide Inv, Genuine, Apply;
      ghost var s := Model();
      id := NewTimer(addr, when, interval, repeat);
      ghost var s1 := Model();
      AddedIsActive(s, Construct(addr, when, interval, repeat));
      StepGenuine(s1, TimerState.Insert(addr), id);
      AddTimerInLoop(addr);
      assert Run(s1, [TimerState.Insert(addr)]) == Run(Apply(s1, TimerState.Insert(addr)), []);
      assert [Construct(addr, when, interval, repeat), TimerState.Insert(addr)][1..] == [TimerState.Insert(addr)];
    }

    method CancelInLoop(timerId: TimerId)
      requires Valid() && Enabled(Model(), Cancel(timerId))
      modifies this
      ensures Valid() && Model() == Apply(old(Model()), Cancel(timerId))
      ensures timerId in old(activeTimers) ==>
                && timerId.addr in old(heap) && heap == old(heap) - {timerId.addr}
                && activeTimers == old(activeTimers) - {timerId} && cancelingTimers == old(cancelingTimers)
                && freed == old(freed) + [timerId.sequence] && |timers| == |old(timers)| - 1
      ensures timerId !in old(activeTimers) ==>
                && heap == old(heap) && activeTimers == old(activeTimers) && timers == old(timers)
                && freed == old(freed)
                && cancelingTimers == old(cancelingTimers) + if phase.Calling? then {timerId} else {}
      ensures timerfd == old(timerfd)
    {
      hide Inv, Enabled;
      ghost var after := CancelFacts(Model(), timerId);
      hide Apply;
      assert |timers| == |activeTimers|;
      if timerId in activeTimers {
        var timer := timerId.addr;
        ghost var n := |timers|;
        timers := Erase(timers, Entry(heap[timer].expiration, timer));
        assert |timers| == n - 1;
        freed := freed + [heap[timer].sequence];
        heap := heap - {timer};
        activeTimers := activeTimers - {timerId};
      } else if callingExpiredTimers {
        cancelingTimers := cancelingTimers + {timerId};
      }
      assert Model() == after;
      assert |timers| == |activeTimers|;
    }

    /** The expired timers leave `timers_`, then one by one `activeTimers_`. */
    method GetExpired(now: int) returns (expired: seq<Entry>)
      requires Valid() && phase.Idle? && now == clock
      modifies this`timers, this`activeTimers
      ensures expired + timers == old(timers)
      ensures (forall e <- expired :: e.when <= now) && (forall e <- timers :: now < e.when)
      ensures forall id :: id in activeTimers <==>
                id in old(activeTimers) && forall e <- expired :: e.addr != id.addr
      ensures expired == Begin(old(Model())).phase.expired
      ensures timers == Begin(old(Model())).timers && activeTimers == Begin(old(Model())).active
    {
      ghost var before := Model();
      ExpiredEnd(before);
      ExpiredParts(before);
      hide Inv, Keyed, Agree, Begin, ActiveWithout;
      assert |timers| == |activeTimers|;
      var end := LowerBound(timers, Entry(now, UINTPTR_MAX));
      assert end < |timers| ==> now < timers[end].when;
      expired := timers[..end];
      timers := timers[end..];
      EraseActive(before, expired);
    }

    method EraseActive(ghost before: State, expired: seq<Entry>)
      requires Keyed(before) && Agree(before) && expired <= before.timers
      requires heap == before.heap && activeTimers == before.active
      modifies this`activeTimers
      ensures activeTimers == ActiveWithout(before, expired)
    {
      for i := 0 to |expired|
        invariant activeTimers == ActiveWithout(before, expired[..i])
      {
        var timer := TimerId(expired[i].addr, heap[expired[i].addr].sequence);
        assert Queued(before, timer.addr) && timer in before.active;
        EntryOnce(before, expired, i);
        assert timer in activeTimers;
        activeTimers := activeTimers - {timer};
        assert expired[..i + 1] == expired[..i] + [expired[i]];
      }
      assert expired[..|expired|] == expired;
    }

    /** One turn of the `reset` loop: restart the first timer of the rest of the batch, or delete it. */
    method ResetTimer(addr: nat)
      requires Inv(Model()) && Enabled(Model(), ResetOne) && addr == phase.rest[0].addr
      modifies this
      ensures callingExpiredTimers == old(callingExpiredTimers)
      ensures phase == old(phase).(rest := old(phase).rest[1..])
      ensures Inv(Model()) && Model() == Apply(old(Model()), ResetOne)
      ensures addr in old(heap) && timerfd == old(timerfd)
      ensures var t := old(heap)[addr];
              if t.repeat && TimerId(addr, t.sequence) !in cancelingTimers then
                && heap == old(heap)[addr := t.(expiration := old(phase).now + t.interval)] && freed == old(freed)
                && activeTimers == old(activeTimers) + {TimerId(addr, t.sequence)}
                && (forall e :: e in timers <==> e in old(timers) || e == Entry(old(phase).now + t.interval, addr))
              else
                && heap == old(heap) - {addr} && freed == old(freed) + [t.sequence]
                && activeTimers == old(activeTimers) && timers == old(timers)
    {
      hide Inv, TimerEntries.Insert;
      StepInv(Model(), ResetOne);
      phase := phase.(rest := phase.rest[1..]);
      var timer := TimerId(addr, heap[addr].sequence);
      if heap[addr].repeat && timer !in cancelingTimers {
        heap := heap[addr := heap[addr].(expiration := phase.now + heap[addr].interval)];
        timers := TimerEntries.Insert(timers, Entry(heap[addr].expiration, addr));
        activeTimers := activeTimers + {timer};
      } else {
        freed := freed + [heap[addr].sequence];
        heap := heap - {addr};
      }
    }

    method Reset(expired: seq<Entry>)
      requires Inv(Model()) && phase.Resetting? && phase.rest == expired
      modifies this
      ensures callingExpiredTimers == old(callingExpiredTimers) && phase.Idle?
      ensures Inv(Model()) && Model() == Run(old(Model()), ResetSteps(|expired|) + [Rearm])
    {
      hide Inv, InsertTimer, Free;
      ghost var before := Model();
      for i := 0 to |expired|
        invariant Inv(Model()) && callingExpiredTimers == old(callingExpiredTimers)
        invariant phase.Resetting? && phase.rest == expired[i..]
        invariant Model() == Run(before, ResetSteps(i))
      {
        assert phase.rest[0] == expired[i];
        EntriesLive(Model());
        ResetTimer(expired[i].addr);
        RunConcat(before, ResetSteps(i), [ResetOne]);
      }
      RunConcat(before, ResetSteps(|expired|), [Rearm]);
      RearmTimerfd();
    }

    /** The end of `reset`. */
    method RearmTimerfd()
      requires Inv(Model()) && phase.Resetting? && phase.rest == []
      modifies this`timerfd, this`phase
      ensures phase.Idle? && Inv(Model()) && Model() == Apply(old(Model()), Rearm)
      ensures timers == [] || timers[0].when <= 0 ==> timerfd == old(timerfd)
      ensures timers != [] && timers[0].when > 0 ==>
                timerfd == Armed(clock, if timers[0].when < clock + 100 then clock + 100 else timers[0].when)
    {
      hide Inv;
      StepInv(Model(), Rearm);
      EntriesLive(Model());
      if |timers| != 0 && heap[timers[0].addr].expiration > 0 {
        ResetTimerfd(heap[timers[0].addr].expiration);
      }
      phase := Idle;
    }

    /** One operation of a callback or of the environment; a disabled one changes nothing. */
    method Perform(step: Step)
      requires Valid() && phase.Calling? && Reentrant(step)
      modifies this
      ensures Valid() && Model() == Apply(old(Model()), step)
      ensures phase == old(phase)
    {
      hide Inv, Genuine;
      StepInv(Model(), step);
      match step
      case Construct(addr, when, interval, repeat) =>
        if addr !in heap && addr < UINTPTR_MAX {
          var _ := NewTimer(addr, when, interval, repeat);
        }
      case Insert(addr) =>
        if addr in pending && addr in heap {
          AddTimerInLoop(addr);
        }
      case Cancel(id) => CancelInLoop(id);
      case Tick(delta) => clock := clock + delta;
      case Fire =>
        if timerfd.Armed? && timerfd.deadline <= clock {
          timerfd := Fired;
        }
    }

    /** The callback of one timer of the batch: the call itself, then the operations it makes. */
    method RunCallback(operations: seq<Step>)
      requires Valid() && phase.Calling? && phase.next < |phase.expired|
      requires forall step :: step in operations ==> Reentrant(step)
      modifies this
      ensures Valid() && Model() == Run(old(Model()), [RunNext] + operations)
      ensures phase == old(phase).(next := old(phase).next + 1)
    {
      hide Inv;
      ghost var s := Model();
      EntriesLive(s);
      StepInv(s, RunNext);
      ran := ran + [Ran(batches, heap[phase.expired[phase.next].addr].sequence)];
      phase := phase.(next := phase.next + 1);
      ghost var s1 := Model();
      assert s1 == Apply(s, RunNext);
      hide Apply, Enabled;
      for i := 0 to |operations|
        invariant Valid() && phase == s1.phase
        invariant Model() == Run(s1, operations[..i])
      {
        Perform(operations[i]);
        RunConcat(s1, operations[..i], [operations[i]]);
        assert operations[..i + 1] == operations[..i] + [operations[i]];
      }
      assert operations[..|operations|] == operations && ([RunNext] + operations)[1..] == operations;
    }

    method StartCalling(expired: seq<Entry>)
      modifies this
      ensures callingExpiredTimers
      ensures Model() == old(Model()).(alarm := if old(timerfd).Fired? then Disarmed else old(timerfd),
                                       phase := Calling(old(clock), expired, 0, |old(ran)|),
                                       batches := old(batches) + 1, canceling := {})
    {
      timerfd := if timerfd.Fired? then Disarmed else timerfd;
      phase := Calling(clock, expired, 0, |ran|);
      batches := batches + 1;
      callingExpiredTimers := true;
      cancelingTimers := {};
    }

    /** The start of `handleRead`: read the timerfd and take the batch. */
    method BeginBatch() returns (expired: seq<Entry>)
      requires Valid() && phase.Idle?
      modifies this
      ensures Valid() && phase.Calling? && expired == phase.expired
      ensures expired + timers == old(timers)
      ensures (forall e <- expired :: e.when <= clock) && (forall e <- timers :: clock < e.when)
      ensures phase.now == clock && cancelingTimers == {} && heap == old(heap)
      ensures timerfd == if old(timerfd).Fired? then Disarmed else old(timerfd)
      ensures Model() == Apply(old(Model()), BeginRead)
    {
      ghost var s := Model();
      BeginInv(s);
      BeginParts(s);
      hide Inv, Apply, Begin;
      expired := GetExpired(clock);
      assert Model() == s.(timers := timers, active := activeTimers);
      StartCalling(expired);
      assert Model() == Begin(s);
    }

    /** `handleRead`: the `i`-th callback of the batch performs `script[i]`. */
    method HandleRead(script: seq<seq<Step>>)
      requires Valid() && phase.Idle?
      requires forall operations :: operations in script ==> forall step :: step in operations ==> Reentrant(step)
      modifies this
      ensures Valid() && phase.Idle?
      ensures var n := ExpiredCount(old(Model()), old(clock));
              Model() == Run(old(Model()),
                             [BeginRead] + BatchSteps(n, script) + [StopCalling] + (ResetSteps(n) + [Rearm]))
    {
      hide Inv;
      ghost var s0 := Model();
      var expired := BeginBatch();
      ghost var n, s2 := |expired|, Model();
      assert n == ExpiredCount(s0, clock) && phase.next == 0 && phase.expired == expired;
      hide Apply, Enabled, Run, BatchSteps, ResetSteps;
      RunCallbacks(expired, script);
      ghost var s3 := Model();
      EndBatch();
      Reset(expired);
      Together(s0, s2, s3, BatchSteps(n, script), ResetSteps(n) + [Rearm]);
    }

    method EndBatch()
      requires Valid() && phase.Calling? && phase.next == |phase.expired|
      modifies this`callingExpiredTimers, this`phase
      ensures Inv(Model()) && Model() == Apply(old(Model()), StopCalling)
      ensures phase == Resetting(old(phase).now, old(phase).expired) && !callingExpiredTimers
    {
      hide Inv;
      Stop(Model());
      StepInv(Model(), StopCalling);
      callingExpiredTimers := false;
      phase := Resetting(phase.now, phase.expired);
    }

    /** The loop over the batch. */
    method RunCallbacks(expired: seq<Entry>, script: seq<seq<Step>>)
      requires Valid() && phase.Calling? && phase.next == 0 && phase.expired == expired
      requires forall operations :: operations in script ==> forall step :: step in operations ==> Reentrant(step)
      modifies this
      ensures Valid() && phase == old(phase).(next := |expired|)
      ensures Model() == Run(old(Model()), BatchSteps(|expired|, script))
    {
      hide Inv, Apply, Enabled, Reentrant;
      ghost var s2 := Model();
      assert Run(s2, BatchSteps(0, script)) == s2;
      hide Run;
      for i := 0 to |expired|
        invariant Valid() && phase == s2.phase.(next := i)
        invariant Model() == Run(s2, BatchSteps(i, script))
      {
        var operations := if i < |script| then script[i] else [];
        assert i < |script| ==> script[i] in script;
        RunCallback(operations);
        RunConcat(s2, BatchSteps(i, script), [RunNext] + operations);
      }
    }
  }

  lemma BeginParts(s: State)
    requires s.phase.Idle?
    ensures Apply(s, BeginRead) == Begin(s)
    ensures Begin(s) == s.(timers := Begin(s).timers, active := Begin(s).active, canceling := {},
                           phase := Calling(s.clock, Begin(s).phase.expired, 0, |s.ran|),
                           alarm := if s.alarm.Fired? then Disarmed else s.alarm, batches := s.batches + 1)
  {
  }

  lemma Stop(s: State)
    requires s.phase.Calling? && s.phase.next == |s.phase.expired|
    ensures Apply(s, StopCalling) == s.(phase := Resetting(s.phase.now, s.phase.expired))
  {
  }

  lemma PendingNotQueued(s: State, addr: nat)
    requires Inv(s) && addr in s.pending
    ensures !Queued(s, addr)
  {
  }

  lemma EntriesLive(s: State)
    requires Inv(s)
    ensures forall e :: e in s.timers ==> e.addr in s.heap && s.heap[e.addr].expiration == e.when
    ensures forall e :: e in Flying(s) ==> e.addr in s.heap
  {
  }

  lemma AddedIsActive(s: State, step: Step)
    requires Inv(s) && step.Construct? && Enabled(s, step) && !s.phase.Resetting?
    ensures var s1 := Apply(s, step);
            Enabled(s1, TimerState.Insert(step.addr))
            && TimerId(step.addr, s.created + 1) in Apply(s1, TimerState.Insert(step.addr)).active
  {
  }

  ghost function Expiration(s: State, id: TimerId): int {
    if id.addr in s.heap then s.heap[id.addr].expiration else 0
  }

  ghost function ActiveWithout(s: State, expired: seq<Entry>): set<TimerId> {
    set id | id in s.active && Entry(Expiration(s, id), id.addr) !in expired
  }

  /** What cancelling relies on and reaches: the two indexes have one size, before and after. */
  lemma CancelFacts(s: State, id: TimerId) returns (after: State)
    requires Inv(s) && Enabled(s, Cancel(id))
    ensures after == Apply(s, Cancel(id)) == CancelInLoop(s, id) && Inv(after)
    ensures |s.timers| == |s.active| && |after.timers| == |after.active|
    ensures id in s.active ==>
              id.addr in s.heap && s.heap[id.addr].sequence == id.sequence && |after.timers| == |s.timers| - 1
  {
    StepInv(s, Cancel(id));
    after := Apply(s, Cancel(id));
    SameSize(s);
    SameSize(after);
    assert id in s.active ==> id.addr in s.heap && s.heap[id.addr].sequence == id.sequence;
    hide Inv, Erase;
  }

  lemma BeginActive(s: State, end: nat)
    requires Inv(s) && end == ExpiredCount(s, s.clock)
    ensures Begin(s).active == ActiveWithout(s, s.timers[..end])
  {
    assert forall id :: id in s.active ==> id.addr in s.heap;
    hide ExpiredCount, Sorted, Inv;
  }

  /** Where the expired timers end: the assertions of `getExpired`, and the batch it takes. */
  lemma ExpiredEnd(s: State)
    requires Inv(s) && s.phase.Idle?
    ensures Keyed(s) && Agree(s) && |s.timers| == |s.active|
    ensures var end := LowerBound(s.timers, Entry(s.clock, UINTPTR_MAX));
            && (end < |s.timers| ==> s.clock < s.timers[end].when)
            && Begin(s).timers == s.timers[end..]
            && Begin(s).phase.Calling? && Begin(s).phase.expired == s.timers[..end]
            && Begin(s).active == ActiveWithout(s, s.timers[..end])
  {
    SameSize(s);
    var end := ExpiredCount(s, s.clock);
    SplitAt(s.timers, end, s.clock);
    assert end < |s.timers| ==> s.timers[end] in s.timers[end..] && s.timers[end] in s.timers;
    BeginActive(s, end);
    hide ExpiredCount, Sorted, Inv;
  }

  /** The batch and what stays queued, by their entries alone. */
  lemma ExpiredParts(s: State)
    requires Inv(s) && s.phase.Idle?
    ensures var end := LowerBound(s.timers, Entry(s.clock, UINTPTR_MAX));
            && s.timers[..end] + s.timers[end..] == s.timers
            && (forall e <- s.timers[..end] :: e.when <= s.clock)
            && (forall e <- s.timers[end..] :: s.clock < e.when)
            && (forall id :: id in ActiveWithout(s, s.timers[..end]) <==>
                  id in s.active && forall e <- s.timers[..end] :: e.addr != id.addr)
  {
    var end := LowerBound(s.timers, Entry(s.clock, UINTPTR_MAX));
    SplitAt(s.timers, end, s.clock);
    AddressesBelow(s);
    EntriesLive(s);
    hide LowerBound, Sorted;
    assert forall e <- s.timers[end..] :: e in s.timers;
    ActiveByAddress(s, s.timers[..end]);
  }

  lemma AddressesBelow(s: State)
    requires Inv(s)
    ensures forall e :: e in s.timers ==> e.addr < UINTPTR_MAX
  {
    EntriesLive(s);
    assert Owned(s);
    hide Keyed, Agree, Sequenced, Alarmed, Logged;
  }

  lemma ActiveByAddress(s: State, expired: seq<Entry>)
    requires Inv(s) && forall e <- expired :: e in s.timers
    ensures forall id :: id in ActiveWithout(s, expired) <==> id in s.active && forall e <- expired :: e.addr != id.addr
  {
    EntriesLive(s);
    assert forall id :: id in s.active ==> id.addr in s.heap;
    hide Inv;
    forall id
      ensures id in ActiveWithout(s, expired) <==> id in s.active && forall e <- expired :: e.addr != id.addr
    {
      if id in s.active {
        var e := Entry(Expiration(s, id), id.addr);
        assert forall f <- expired :: f in s.timers && (f.addr == id.addr ==> f == e);
      }
    }
  }

  /** No two entries of the batch are for the same timer. */
  lemma EntryOnce(s: State, expired: seq<Entry>, i: nat)
    requires Keyed(s) && expired <= s.timers && i < |expired|
    ensures expired[i] !in expired[..i]
  {
    forall j | 0 <= j < i ensures expired[j] != expired[i] {
      assert Less(s.timers[j], s.timers[i]);
    }
  }

  lemma Together(s0: State, s2: State, s3: State, calls: seq<Step>, reset: seq<Step>)
    requires s2 == Apply(s0, BeginRead) && s3 == Run(s2, calls)
    ensures Run(Apply(s3, StopCalling), reset) == Run(s0, [BeginRead] + calls + [StopCalling] + reset)
  {
    assert [BeginRead] + calls + [StopCalling] + reset == [BeginRead] + (calls + ([StopCalling] + reset));
    assert ([BeginRead] + (calls + ([StopCalling] + reset)))[1..] == calls + ([StopCalling] + reset);
    RunConcat(s2, calls, [StopCalling] + reset);
    assert ([StopCalling] + reset)[1..] == reset;
  }

  // ---------- What a batch leaves behind ----------

  /**
   `reset` deals with the timer at `a`: a repeating one not cancelled is due again one interval on, any
   other is freed.
   */
  predicate Disposed(s: State, s': State, a: nat)
    requires a in s.heap && s.phase.Resetting?
  {
    var t := s.heap[a];
    if t.repeat && TimerId(a, t.sequence) !in s.canceling then
      Queued(s', a) && s'.heap[a] == t.(expiration := s.phase.now + t.interval)
    else t.sequence in s'.freed
  }

  /** Timers waiting for a later alarm are left alone, and what is freed stays freed. */
  ghost predicate LeavesOthers(s: State, s': State) {
    && (forall a :: Queued(s, a) ==> Queued(s', a) && s'.heap[a] == s.heap[a])
    && (forall q :: q in s.freed ==> q in s'.freed)
  }

  lemma {:induction false} ResetStepsFirst(n: nat)
    requires n > 0
    ensures ResetSteps(n) == [ResetOne] + ResetSteps(n - 1)
  {
    if n > 1 {
      ResetStepsFirst(n - 1);
    }
  }

  lemma ResetOneDisposes(s: State)
    requires Inv(s) && Enabled(s, ResetOne)
    ensures var s1 := Apply(s, ResetOne);
            && s1.phase == Resetting(s.phase.now, s.phase.rest[1..]) && s1.canceling == s.canceling
            && Disposed(s, s1, s.phase.rest[0].addr)
  {
    hide Inv;
  }

  /** The rest of the batch is untouched when its first timer is dealt with. */
  lemma ResetOneKeepsRest(s: State)
    requires Inv(s) && Enabled(s, ResetOne)
    ensures forall e <- s.phase.rest[1..] ::
              && e.addr in s.heap && e.addr in Apply(s, ResetOne).heap
              && Apply(s, ResetOne).heap[e.addr] == s.heap[e.addr]
  {
    DropFirst(s);
    var first := s.phase.rest[0].addr;
    var s0 := s.(phase := s.phase.(rest := s.phase.rest[1..]));
    LiveAfterFirst(s, s0);
    hide Inv, Keyed, Agree, TimerEntries.Insert;
  }

  lemma LiveAfterFirst(s: State, s0: State)
    requires Keyed(s) && s.phase.Resetting? && s.phase.rest != []
    requires s0 == s.(phase := s.phase.(rest := s.phase.rest[1..]))
    requires forall a :: InFlight(s0, a) <==> InFlight(s, a) && a != s.phase.rest[0].addr
    ensures forall e <- s.phase.rest[1..] :: e.addr in s.heap && e.addr != s.phase.rest[0].addr
  {
    hide Sorted;
    forall e <- s.phase.rest[1..] ensures e.addr in s.heap && e.addr != s.phase.rest[0].addr {
      assert e in s.phase.rest && e in Flying(s) && e in Flying(s0);
      assert InFlight(s0, e.addr);
    }
  }

  lemma ResetOneLeaves(s: State)
    requires Inv(s) && Enabled(s, ResetOne)
    ensures LeavesOthers(s, Apply(s, ResetOne))
  {
    var first := s.phase.rest[0].addr;
    assert first in s.heap && !Queued(s, first) by {
      DropFirst(s);
    }
    hide Inv;
    var s1 := Apply(s, ResetOne);
    forall a | Queued(s, a) ensures Queued(s1, a) && s1.heap[a] == s.heap[a] {
      assert a != first;
      assert Entry(s.heap[a].expiration, a) in s1.timers;
    }
  }

  lemma DisposedLater(s: State, s1: State, s': State, first: nat, a: nat)
    requires first in s.heap && a in s.heap && s.phase.Resetting? && Disposed(s, s1, first)
    requires s1.phase.Resetting? && s1.phase.now == s.phase.now && s1.canceling == s.canceling
    requires LeavesOthers(s1, s')
    requires a != first ==> a in s1.heap && s1.heap[a] == s.heap[a] && Disposed(s1, s', a)
    ensures Disposed(s, s', a)
  {
  }

  lemma LeavesMore(s: State, s1: State, s': State)
    requires LeavesOthers(s, s1) && LeavesOthers(s1, s')
    ensures LeavesOthers(s, s')
  {
    hide Queued;
  }

  /** The reset loop deals with every timer of the batch. */
  lemma {:induction false} ResetDisposesAll(s: State)
    requires Inv(s) && s.phase.Resetting?
    ensures var s' := Run(s, ResetSteps(|s.phase.rest|));
            && s'.phase == Resetting(s.phase.now, [])
            && (forall e <- s.phase.rest :: e.addr in s.heap && Disposed(s, s', e.addr))
            && LeavesOthers(s, s')
    decreases |s.phase.rest|
  {
    ResetEnabled(s);
    hide Inv, Apply, Run, Disposed, LeavesOthers, Enabled, ResetSteps;
    var n := |s.phase.rest|;
    if n == 0 {
      NothingToReset(s);
    } else {
      ResetOneDisposes(s);
      ResetOneKeepsRest(s);
      ResetOneLeaves(s);
      StepInv(s, ResetOne);
      var s1 := Apply(s, ResetOne);
      ResetDisposesAll(s1);
      ResetStepsFirst(n);
      RunAfter(s, ResetOne, ResetSteps(n - 1));
      var s' := Run(s1, ResetSteps(n - 1));
      LeavesMore(s, s1, s');
      DisposedRest(s, s1, s');
    }
  }

  lemma ResetEnabled(s: State)
    requires Inv(s) && s.phase.Resetting?
    ensures forall e <- s.phase.rest :: e.addr in s.heap
    ensures s.phase.rest != [] ==> Enabled(s, ResetOne)
  {
    EntriesLive(s);
    hide Inv;
    assert Flying(s) == s.phase.rest;
  }

  lemma NothingToReset(s: State)
    ensures Run(s, ResetSteps(0)) == s && LeavesOthers(s, s)
  {
  }

  lemma DisposedRest(s: State, s1: State, s': State)
    requires s.phase.Resetting? && s.phase.rest != [] && (forall e <- s.phase.rest :: e.addr in s.heap)
    requires s1.phase == Resetting(s.phase.now, s.phase.rest[1..]) && s1.canceling == s.canceling
    requires Disposed(s, s1, s.phase.rest[0].addr) && LeavesOthers(s1, s')
    requires forall e <- s1.phase.rest ::
               e.addr in s1.heap && s1.heap[e.addr] == s.heap[e.addr] && Disposed(s1, s', e.addr)
    ensures forall e <- s.phase.rest :: Disposed(s, s', e.addr)
  {
    hide Disposed, LeavesOthers;
    var first := s.phase.rest[0];
    forall e <- s.phase.rest ensures Disposed(s, s', e.addr) {
      assert e == first || e in s1.phase.rest;
      DisposedLater(s, s1, s', first.addr, e.addr);
    }
  }
}
