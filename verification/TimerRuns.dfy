/**
 What the timer queue keeps over every run: the two indexes agree, each timer is owned once and
 freed once, cancellation is final, and the alarm never lets an expiry slip.
 */
module TimerRuns {
  import opened TimerEntries
  import opened TimerState

  lemma InitInv(clock: int)
    requires clock > 0
    ensures Inv(Init(clock))
  {
  }

  // ---------- Sequence numbers: given out once, freed once ----------

  lemma ConstructSequenced(s: State, step: Step)
    requires Sequenced(s) && step.Construct? && Enabled(s, step)
    ensures Sequenced(Apply(s, step))
  {
    var s' := Apply(s, step);
    assert s'.heap[step.addr].sequence == s'.created;
    forall q | Live(s, q) ensures Live(s', q) {
      var a :| a in s.heap && s.heap[a].sequence == q;
      assert a in s'.heap && s'.heap[a].sequence == q;
    }
    forall q | Live(s', q) ensures Live(s, q) || q == s'.created {
      var a :| a in s'.heap && s'.heap[a].sequence == q;
      assert a != step.addr ==> a in s.heap && s.heap[a].sequence == q;
    }
  }

  lemma FreeSequenced(s: State, addr: nat)
    requires Sequenced(s) && addr in s.heap
    ensures Sequenced(Free(s, addr))
  {
    var s' := Free(s, addr);
    forall q | Live(s, q) && q != s.heap[addr].sequence ensures Live(s', q) {
      var a :| a in s.heap && s.heap[a].sequence == q;
      assert a in s'.heap && s'.heap[a].sequence == q;
    }
    forall q | Live(s', q) ensures Live(s, q) && q != s.heap[addr].sequence {
      var a :| a in s'.heap && s'.heap[a].sequence == q;
      assert a in s.heap && s.heap[a].sequence == q;
    }
    assert Live(s, s.heap[addr].sequence);
  }

  lemma SameSequenced(s: State, s': State)
    requires Sequenced(s) && s'.created == s.created && s'.freed == s.freed && s'.heap.Keys == s.heap.Keys
    requires forall a :: a in s.heap ==> s'.heap[a].sequence == s.heap[a].sequence
    ensures Sequenced(s')
  {
    forall q ensures Live(s', q) <==> Live(s, q) {
      if Live(s, q) {
        var a :| a in s.heap && s.heap[a].sequence == q;
        assert a in s'.heap && s'.heap[a].sequence == q;
      }
    }
  }

  // ---------- Each step keeps the invariant ----------

  /** Steps that touch neither the indexes nor the store. */
  lemma SameIndexes(s: State, s': State)
    requires Keyed(s) && Agree(s) && Sequenced(s)
    requires s'.heap == s.heap && s'.timers == s.timers && s'.active == s.active && Flying(s') == Flying(s)
    requires s'.created == s.created && s'.freed == s.freed
    ensures Keyed(s') && Agree(s') && Sequenced(s')
    ensures forall a :: Queued(s', a) == Queued(s, a)
    ensures forall a :: InFlight(s', a) == InFlight(s, a)
  {
    SameSequenced(s, s');
    hide Sequenced;
    forall a ensures Queued(s', a) == Queued(s, a) {
    }
    forall a ensures InFlight(s', a) == InFlight(s, a) {
    }
  }

  lemma ConstructInv(s: State, step: Step)
    requires Inv(s) && step.Construct? && Enabled(s, step)
    ensures Inv(Apply(s, step))
  {
    ConstructSequenced(s, step);
    ConstructIndexes(s, step);
    ConstructAlarmed(s, step);
    hide Sequenced, Keyed, Agree, Queued, InFlight, Alarmed, Logged;
  }

  lemma ConstructIndexes(s: State, step: Step)
    requires Keyed(s) && Agree(s) && step.Construct? && Enabled(s, step)
    ensures var s' := Apply(s, step);
            && Keyed(s') && Agree(s')
            && (forall a :: Queued(s', a) <==> Queued(s, a)) && (forall a :: InFlight(s', a) <==> InFlight(s, a))
            && !Queued(s, step.addr) && !InFlight(s, step.addr)
  {
    var s' := Apply(s, step);
    forall a ensures Queued(s', a) == Queued(s, a) && InFlight(s', a) == InFlight(s, a) {
    }
  }

  lemma ConstructAlarmed(s: State, step: Step)
    requires Alarmed(s) && Logged(s) && step.Construct? && Enabled(s, step)
    ensures Alarmed(Apply(s, step)) && Logged(Apply(s, step))
  {
  }

  /** Entering both indexes moves a timer from `pending`, or from the batch, to the queue. */
  lemma InsertTimerKeeps(s: State, addr: nat)
    requires Keyed(s) && Agree(s) && addr in s.heap && !Queued(s, addr)
    ensures Keyed(InsertTimer(s, addr)) && Agree(InsertTimer(s, addr))
    ensures forall a :: Queued(InsertTimer(s, addr), a) <==> Queued(s, a) || a == addr
    ensures forall a :: InFlight(InsertTimer(s, addr), a) <==> InFlight(s, a)
  {
    var s' := InsertTimer(s, addr);
    forall a ensures Queued(s', a) <==> Queued(s, a) || a == addr {
    }
  }

  lemma InsertInv(s: State, addr: nat)
    requires Inv(s) && Enabled(s, Insert(addr))
    ensures Inv(AddTimerInLoop(s, addr))
  {
    assert addr in s.pending && !Queued(s, addr);
    hide Sequenced, Keyed, Agree, Owned, Alarmed, Logged;
    InsertTimerKeeps(s, addr);
    SameSequenced(s, InsertTimer(s, addr));
    SameIndexes(InsertTimer(s, addr), AddTimerInLoop(s, addr));
    InsertAlarmed(s, addr);
    InsertOwned(s, AddTimerInLoop(s, addr), addr);
  }

  lemma InsertOwned(s: State, s': State, addr: nat)
    requires Owned(s) && addr in s.pending && s'.heap == s.heap && s'.pending == s.pending - {addr}
    requires forall a :: Queued(s', a) <==> Queued(s, a) || a == addr
    requires forall a :: InFlight(s', a) <==> InFlight(s, a)
    ensures Owned(s')
  {
    hide Queued, InFlight;
  }

  /** The alarm is moved forward exactly when the new timer comes first. */
  lemma InsertAlarmed(s: State, addr: nat)
    requires Keyed(s) && Alarmed(s) && Logged(s) && Enabled(s, Insert(addr))
    ensures Alarmed(AddTimerInLoop(s, addr)) && Logged(AddTimerInLoop(s, addr))
  {
  }

  /** The store of timers without one, when no index refers to it any more. */
  lemma FreeKeeps(s: State, addr: nat)
    requires Keyed(s) && Agree(s) && addr in s.heap && !Queued(s, addr) && !InFlight(s, addr)
    ensures Keyed(Free(s, addr)) && Agree(Free(s, addr))
    ensures forall a :: Queued(Free(s, addr), a) <==> Queued(s, a)
    ensures forall a :: InFlight(Free(s, addr), a) <==> InFlight(s, a)
  {
    var s' := Free(s, addr);
    forall a ensures Queued(s', a) <==> Queued(s, a) {
    }
    forall a ensures InFlight(s', a) <==> InFlight(s, a) {
    }
  }

  /** Leaving both indexes. */
  lemma EraseKeeps(s: State, id: TimerId)
    requires Keyed(s) && Agree(s) && id in s.active
    ensures Queued(s, id.addr)
    ensures var s' := s.(timers := Erase(s.timers, Entry(s.heap[id.addr].expiration, id.addr)),
                         active := s.active - {id});
            && Keyed(s') && Agree(s')
            && (forall a :: Queued(s', a) <==> Queued(s, a) && a != id.addr)
            && (forall a :: InFlight(s', a) <==> InFlight(s, a))
  {
    var s' := s.(timers := Erase(s.timers, Entry(s.heap[id.addr].expiration, id.addr)), active := s.active - {id});
    forall a ensures Queued(s', a) <==> Queued(s, a) && a != id.addr {
    }
  }

  lemma CancelInv(s: State, id: TimerId)
    requires Inv(s) && Enabled(s, Cancel(id))
    ensures Inv(CancelInLoop(s, id))
  {
    if id in s.active && id.addr in s.heap {
      CancelQueuedInv(s, id);
    } else {
      SameIndexes(s, CancelInLoop(s, id));
      hide Sequenced, Keyed, Agree, Queued, InFlight;
    }
  }

  lemma CancelQueuedInv(s: State, id: TimerId)
    requires Inv(s) && Enabled(s, Cancel(id)) && id in s.active && id.addr in s.heap
    ensures Inv(CancelInLoop(s, id))
  {
    var s1 := s.(timers := Erase(s.timers, Entry(s.heap[id.addr].expiration, id.addr)), active := s.active - {id});
    EraseKeeps(s, id);
    FreedOwned(s, s1, id.addr);
    SameSequenced(s, s1);
    FreeSequenced(s1, id.addr);
    CancelAlarmed(s, id);
    hide Sequenced, Keyed, Agree, Owned, Alarmed, Logged;
  }

  /** Once an index has let go of a timer, freeing it leaves the others where they were. */
  lemma FreedOwned(s: State, s1: State, addr: nat)
    requires Owned(s) && addr in s.heap && addr !in s.pending
    requires Keyed(s1) && Agree(s1) && s1.heap == s.heap && s1.pending == s.pending
    requires !Queued(s1, addr) && !InFlight(s1, addr)
    requires forall a :: a != addr ==> Queued(s1, a) == Queued(s, a) && InFlight(s1, a) == InFlight(s, a)
    ensures Owned(Free(s1, addr)) && Keyed(Free(s1, addr)) && Agree(Free(s1, addr))
  {
    FreeKeeps(s1, addr);
    hide Keyed, Agree, Queued, InFlight;
  }

  /** Cancelling keeps the alarm, which is early enough for whichever timer comes next. */
  lemma CancelAlarmed(s: State, id: TimerId)
    requires Keyed(s) && Agree(s) && Owned(s) && Alarmed(s) && Logged(s) && id in s.active && id.addr in s.heap
    ensures Alarmed(CancelInLoop(s, id)) && Logged(CancelInLoop(s, id))
  {
    var s' := CancelInLoop(s, id);
    assert Queued(s, id.addr);
    if s.phase.Calling? {
      forall j | 0 <= j < |s.phase.expired| ensures s.phase.expired[j].addr != id.addr {
        assert s.phase.expired[j] in Flying(s);
        assert s.phase.expired[j].addr == id.addr ==> InFlight(s, id.addr);
      }
    }
  }

  lemma BeginInv(s: State)
    requires Inv(s) && Enabled(s, BeginRead)
    ensures Inv(Begin(s))
  {
    BeginIndexes(s);
    SameSequenced(s, Begin(s));
    hide Sequenced, Keyed, Agree, Queued, InFlight;
    BeginAlarmed(s);
  }

  /** The expired timers, and no others, move from the queue to the batch. */
  lemma BeginIndexes(s: State)
    requires Keyed(s) && Agree(s) && s.phase.Idle?
    ensures var s' := Begin(s);
            && Keyed(s') && Agree(s')
            && s.timers == Flying(s') + s'.timers
            && (forall e :: e in Flying(s') ==> e.when <= s.clock)
            && (forall a :: Queued(s, a) <==> Queued(s', a) || InFlight(s', a))
            && (forall a :: Queued(s', a) ==> !InFlight(s', a) && s.heap[a].expiration >= s.clock)
  {
    SplitAt(s.timers, ExpiredCount(s, s.clock), s.clock);
    BeginPlaces(s);
    hide ExpiredCount, Queued, InFlight;
  }

  lemma BeginKeyed(s: State)
    requires Keyed(s) && s.phase.Idle?
    ensures Keyed(Begin(s))
  {
    var k := ExpiredCount(s, s.clock);
    SplitAt(s.timers, k, s.clock);
    KeyedParts(s, k);
    hide ExpiredCount, Sorted;
  }

  lemma KeyedParts(s: State, k: nat)
    requires Keyed(s) && k <= |s.timers|
    ensures forall e <- s.timers[..k] + s.timers[k..] :: e.addr in s.heap && s.heap[e.addr].expiration == e.when
  {
    hide Sorted;
    assert forall e <- s.timers[..k] + s.timers[k..] :: e in s.timers;
  }

  lemma BeginPlaces(s: State)
    requires Keyed(s) && Agree(s) && s.phase.Idle?
    ensures Keyed(Begin(s)) && Agree(Begin(s))
    ensures forall a :: Queued(s, a) <==> Queued(Begin(s), a) || InFlight(Begin(s), a)
    ensures forall a :: Queued(Begin(s), a) ==> !InFlight(Begin(s), a) && s.heap[a].expiration >= s.clock
  {
    BeginKeyed(s);
    var k := ExpiredCount(s, s.clock);
    SplitAt(s.timers, k, s.clock);
    hide ExpiredCount, Sorted, Keyed, Agree;
    BeginSplits(s, s.timers[..k], s.timers[k..]);
    forall a | Queued(Begin(s), a) ensures !InFlight(Begin(s), a) && s.heap[a].expiration >= s.clock {
      assert Entry(s.heap[a].expiration, a) in s.timers[k..];
    }
  }

  /** Membership of the two indexes, given the split of the queue. */
  lemma BeginSplits(s: State, expired: seq<Entry>, rest: seq<Entry>)
    requires Agree(s) && s.phase.Idle? && expired == Begin(s).phase.expired && rest == Begin(s).timers
    requires forall e :: e in s.timers <==> e in expired || e in rest
    requires forall e :: e in expired ==> e !in rest
    ensures Agree(Begin(s))
    ensures forall a :: Queued(Begin(s), a) <==> a in s.heap && Entry(s.heap[a].expiration, a) in rest
    ensures forall a :: InFlight(Begin(s), a) <==> a in s.heap && Entry(s.heap[a].expiration, a) in expired
  {
    var s' := Begin(s);
    hide ExpiredCount;
    forall id ensures id in s'.active <==> Queued(s', id.addr) && s.heap[id.addr].sequence == id.sequence {
    }
  }

  lemma SplitAt(es: seq<Entry>, k: nat, now: int)
    requires Sorted(es) && k == LowerBound(es, Entry(now, UINTPTR_MAX))
    ensures es == es[..k] + es[k..] && Sorted(es[..k]) && Sorted(es[k..])
    ensures forall e :: e in es <==> e in es[..k] || e in es[k..]
    ensures forall e :: e in es[..k] ==> e.when <= now && e !in es[k..]
    ensures forall e :: e in es[k..] ==> e.when >= now && (e.addr < UINTPTR_MAX ==> e.when > now)
  {
    hide LowerBound;
    forall e | e in es[k..] ensures e.when >= now && (e.addr < UINTPTR_MAX ==> e.when > now) {
      var i :| k <= i < |es| && es[i] == e;
      assert i > k ==> Less(es[k], es[i]);
    }
    forall e | e in es[..k] ensures e !in es[k..] {
      var i :| 0 <= i < k && es[i] == e;
      assert forall j :: k <= j < |es| ==> Less(es[i], es[j]);
    }
  }

  lemma BeginAlarmed(s: State)
    requires Owned(s) && Keyed(s) && Alarmed(s) && s.phase.Idle?
    requires forall e :: e in Flying(Begin(s)) ==> e.when <= s.clock
    requires forall a :: Queued(Begin(s), a) ==> s.heap[a].expiration >= s.clock
    requires Keyed(Begin(s))
    ensures Alarmed(Begin(s)) && Logged(Begin(s))
  {
    var s' := Begin(s);
    if s'.timers != [] {
      assert s'.timers[0] in s'.timers;
      assert Queued(s', s'.timers[0].addr);
    }
  }

  lemma OtherInv(s: State, step: Step)
    requires Inv(s) && Enabled(s, step)
    requires step.Tick? || step.Fire? || step.RunNext? || step.StopCalling? || step.Rearm?
    ensures Inv(Apply(s, step))
  {
    OtherAlarmed(s, step);
    hide Sequenced, Keyed, Agree, Queued, InFlight, Alarmed, Logged;
    OtherSame(s, step);
    SameIndexes(s, Apply(s, step));
  }

  /** They leave timers and indexes alone. */
  lemma OtherSame(s: State, step: Step)
    requires step.Tick? || step.Fire? || step.RunNext? || step.StopCalling? || step.Rearm?
    ensures var s' := Apply(s, step);
            && s'.heap == s.heap && s'.timers == s.timers && s'.active == s.active && s'.pending == s.pending
            && s'.created == s.created && s'.freed == s.freed && Flying(s') == Flying(s)
  {
  }

  lemma OtherAlarmed(s: State, step: Step)
    requires Inv(s) && Enabled(s, step)
    requires step.Tick? || step.Fire? || step.RunNext? || step.StopCalling? || step.Rearm?
    ensures Alarmed(Apply(s, step)) && Logged(Apply(s, step))
  {
    hide Sequenced, Agree, Owned;
  }

  /** The batch without its first entry. */
  lemma DropFirst(s: State)
    requires Keyed(s) && Agree(s) && s.phase.Resetting? && s.phase.rest != []
    ensures var s' := s.(phase := s.phase.(rest := s.phase.rest[1..])); var first := s.phase.rest[0].addr;
            && Keyed(s') && Agree(s')
            && (forall a :: Queued(s', a) <==> Queued(s, a))
            && (forall a :: InFlight(s', a) <==> InFlight(s, a) && a != first)
            && InFlight(s, first)
  {
    var s' := s.(phase := s.phase.(rest := s.phase.rest[1..]));
    var rest := s.phase.rest;
    assert rest == [rest[0]] + rest[1..];
    assert forall e :: e in rest[1..] ==> Less(rest[0], e);
    forall a ensures InFlight(s', a) <==> InFlight(s, a) && a != rest[0].addr {
    }
  }

  /** `restart`: a timer that no index refers to changes its expiration. */
  lemma RestartKeeps(s: State, addr: nat, t: Timer)
    requires Keyed(s) && Agree(s) && addr in s.heap && !Queued(s, addr) && !InFlight(s, addr)
    requires t.sequence == s.heap[addr].sequence
    ensures var s' := s.(heap := s.heap[addr := t]);
            && Keyed(s') && Agree(s')
            && (forall a :: Queued(s', a) <==> Queued(s, a))
            && (forall a :: InFlight(s', a) <==> InFlight(s, a))
  {
    var s' := s.(heap := s.heap[addr := t]);
    assert forall e :: e in s.timers ==> e.addr != addr;
    assert forall e :: e in Flying(s) ==> e.addr != addr;
    forall a ensures Queued(s', a) <==> Queued(s, a) {
    }
    forall a ensures InFlight(s', a) <==> InFlight(s, a) {
    }
  }

  lemma ResetFirstInv(s: State)
    requires Inv(s) && Enabled(s, ResetOne)
    ensures Inv(ResetFirst(s))
  {
    var addr := s.phase.rest[0].addr;
    if s.heap[addr].repeat && IdOf(s, addr) !in s.canceling {
      RestartInv(s);
    } else {
      DeleteInv(s);
    }
  }

  lemma DeleteInv(s: State)
    requires Inv(s) && Enabled(s, ResetOne)
    requires var addr := s.phase.rest[0].addr; !(s.heap[addr].repeat && IdOf(s, addr) !in s.canceling)
    ensures Inv(ResetFirst(s))
  {
    var addr := s.phase.rest[0].addr;
    FirstInFlight(s);
    hide Sequenced, Keyed, Agree, Owned, Queued, InFlight;
    DropFirst(s);
    var s1 := s.(phase := s.phase.(rest := s.phase.rest[1..]));
    FreedOwned(s, s1, addr);
    SameSequenced(s, s1);
    FreeSequenced(s1, addr);
  }

  lemma FirstInFlight(s: State)
    requires Inv(s) && Enabled(s, ResetOne)
    ensures var addr := s.phase.rest[0].addr; addr !in s.pending && !Queued(s, addr) && 0 < s.phase.now
  {
    assert s.phase.rest[0] in Flying(s) && InFlight(s, s.phase.rest[0].addr);
    hide Keyed, Agree, Sequenced, Logged, InFlight, Queued;
  }

  lemma RestartInv(s: State)
    requires Inv(s) && Enabled(s, ResetOne)
    requires var addr := s.phase.rest[0].addr; s.heap[addr].repeat && IdOf(s, addr) !in s.canceling
    ensures Inv(ResetFirst(s))
  {
    var addr := s.phase.rest[0].addr;
    FirstInFlight(s);
    hide Keyed, Agree, Sequenced, Owned, Alarmed, Logged, Queued, InFlight;
    DropFirst(s);
    var s1 := s.(phase := s.phase.(rest := s.phase.rest[1..]));
    var t := s.heap[addr].(expiration := s.phase.now + s.heap[addr].interval);
    RestartAlarmed(s, s1.(heap := s.heap[addr := t]), addr);
    RestartOwned(s, s1, addr, t);
    assert ResetFirst(s) == InsertTimer(s1.(heap := s.heap[addr := t]), addr);
    hide ResetFirst, Enabled;
    SameSequenced(s, InsertTimer(s1.(heap := s.heap[addr := t]), addr));
  }

  lemma RestartOwned(s: State, s1: State, addr: nat, t: Timer)
    requires Owned(s) && Keyed(s1) && Agree(s1) && addr in s.heap && addr !in s.pending
    requires s1.heap == s.heap && s1.pending == s.pending && t.sequence == s.heap[addr].sequence
    requires !Queued(s1, addr) && !InFlight(s1, addr)
    requires forall a :: a != addr ==> Queued(s1, a) == Queued(s, a) && InFlight(s1, a) == InFlight(s, a)
    ensures var s' := InsertTimer(s1.(heap := s.heap[addr := t]), addr); Keyed(s') && Agree(s') && Owned(s')
  {
    RestartKeeps(s1, addr, t);
    InsertTimerKeeps(s1.(heap := s.heap[addr := t]), addr);
    RequeuedOwned(s, InsertTimer(s1.(heap := s.heap[addr := t]), addr), addr);
    hide Keyed, Agree, Owned, Queued, InFlight;
  }

  lemma RequeuedOwned(s: State, s': State, addr: nat)
    requires Owned(s) && addr in s.heap && addr !in s.pending
    requires s'.heap.Keys == s.heap.Keys && s'.pending == s.pending
    requires Queued(s', addr) && !InFlight(s', addr)
    requires forall a :: a != addr ==> Queued(s', a) == Queued(s, a) && InFlight(s', a) == InFlight(s, a)
    ensures Owned(s')
  {
    hide Queued, InFlight;
  }

  /** A restarted timer is due after this batch began, so it is never one whose alarm is overdue. */
  lemma RestartAlarmed(s: State, s2: State, addr: nat)
    requires Alarmed(s) && s.phase.Resetting? && addr in s2.heap
    requires s2 == s.(phase := s2.phase, heap := s2.heap)
    requires s2.phase.Resetting? && s2.phase.now == s.phase.now <= s2.heap[addr].expiration
    ensures Alarmed(InsertTimer(s2, addr)) && Logged(InsertTimer(s2, addr))
  {
  }

  /** Every step, enabled or not, keeps the invariant. */
  lemma StepInv(s: State, step: Step)
    requires Inv(s)
    ensures Inv(Apply(s, step))
  {
    if Enabled(s, step) {
      match step
      case Construct(_, _, _, _) => ConstructInv(s, step);
      case Insert(addr) => InsertInv(s, addr);
      case Cancel(id) => CancelInv(s, id);
      case BeginRead => BeginInv(s);
      case ResetOne => ResetFirstInv(s);
      case _ => OtherInv(s, step);
    }
  }

  lemma {:induction false} RunInv(s: State, steps: seq<Step>)
    requires Inv(s)
    ensures Inv(Run(s, steps))
    decreases |steps|
  {
    if steps != [] {
      StepInv(s, steps[0]);
      RunInv(Apply(s, steps[0]), steps[1..]);
    }
  }

  // ---------- The indexes ----------

  ghost function Ids(s: State, es: seq<Entry>): set<TimerId> {
    set e | e in es && e.addr in s.heap :: IdOf(s, e.addr)
  }

  lemma {:induction false} IdsSize(s: State, es: seq<Entry>)
    requires Sorted(es) && forall e :: e in es ==> e.addr in s.heap && s.heap[e.addr].expiration == e.when
    ensures |Ids(s, es)| == |es|
  {
    if es != [] {
      IdsSize(s, es[1..]);
      assert forall e :: e in es[1..] ==> Less(es[0], e);
      assert Ids(s, es) == {IdOf(s, es[0].addr)} + Ids(s, es[1..]);
    }
  }

  /** The assertion `timers_.size() == activeTimers_.size()`, in every state. */
  lemma SameSize(s: State)
    requires Inv(s)
    ensures |s.timers| == |s.active|
  {
    IdsSize(s, s.timers);
    assert s.active == Ids(s, s.timers);
  }

  // ---------- No lost expiry ----------

  /** Between alarms, the timerfd is set early enough for the earliest timer or has already expired. */
  lemma NoLostExpiry(clock: int, steps: seq<Step>)
    requires clock > 0
    ensures var s := Run(Init(clock), steps);
            s.phase.Idle? && s.timers != [] ==> InTime(s.alarm, s.timers[0].when)
  {
    InitInv(clock);
    RunInv(Init(clock), steps);
  }

  /** Once the earliest timer is due, and 100 microseconds after the alarm was set, the alarm goes off. */
  lemma DueAlarmFires(s: State)
    requires Inv(s) && s.phase.Idle? && s.timers != [] && s.timers[0].when <= s.clock
    requires s.alarm.Armed? ==> s.alarm.at + 100 <= s.clock
    ensures Apply(s, Fire).alarm.Fired?
  {
  }

  /** `handleRead` takes exactly the timers due by now, in key order, and leaves the rest queued. */
  lemma BatchIsExpired(s: State)
    requires Inv(s) && s.phase.Idle?
    ensures var s' := Apply(s, BeginRead);
            && s'.phase.Calling? && Sorted(s'.phase.expired)
            && s'.phase.expired + s'.timers == s.timers
            && (forall e :: e in s.timers ==> (e in s'.phase.expired <==> e.when <= s.clock))
  {
    assert Sorted(s.timers);
    assert forall e :: e in s.timers ==> e.addr < UINTPTR_MAX;
    hide Keyed, Agree, Owned, Sequenced, Alarmed, Logged, Sorted, LowerBound;
    SplitAt(s.timers, ExpiredCount(s, s.clock), s.clock);
  }

  /** By the end of a batch each of its timers has been called once, in the order of the batch. */
  lemma BatchRunsOnce(s: State)
    requires Inv(s) && Enabled(s, StopCalling)
    ensures var p := s.phase;
            && (forall e :: e in p.expired ==> e.addr in s.heap)
            && s.ran[p.start..]
               == seq(|p.expired|, j requires 0 <= j < |p.expired| && p.expired[j].addr in s.heap
                                   => Ran(s.batches, s.heap[p.expired[j].addr].sequence))
  {
  }

  // ---------- Cancellation ----------

  /** An id that `addTimer` returned: while its timer lives, it lives at that address. */
  ghost predicate Genuine(s: State, id: TimerId) {
    && 1 <= id.sequence <= s.created
    && (forall a :: a in s.heap && s.heap[a].sequence == id.sequence ==> a == id.addr)
  }

  lemma ConstructGenuine(s: State, addr: nat, when: int, interval: nat, repeat: bool)
    requires Inv(s) && Enabled(s, Construct(addr, when, interval, repeat))
    ensures Genuine(Apply(s, Construct(addr, when, interval, repeat)), TimerId(addr, s.created + 1))
  {
  }

  lemma StepGenuine(s: State, step: Step, id: TimerId)
    requires Genuine(s, id)
    ensures Genuine(Apply(s, step), id)
  {
  }

  /** Cancelling, by a stale id as well, touches no other timer: neither its place nor its life. */
  lemma CancelTouchesOnlyItsTimer(s: State, id: TimerId, a: nat)
    requires Inv(s) && a in s.heap && s.heap[a].sequence != id.sequence
    ensures var s' := Apply(s, Cancel(id));
            && a in s'.heap && s'.heap[a] == s.heap[a]
            && (Queued(s', a) <==> Queued(s, a)) && (IdOf(s, a) in s'.active <==> IdOf(s, a) in s.active)
            && (IdOf(s, a) in s'.canceling <==> IdOf(s, a) in s.canceling)
  {
  }

  /** The timer numbered `q` is freed. */
  ghost predicate Gone(s: State, q: nat) {
    q <= s.created && !Live(s, q)
  }

  /** The timer numbered `q` is freed, or is in the batch and marked for deletion at its end. */
  ghost predicate Cancelled(s: State, q: nat) {
    && q <= s.created
    && (forall a :: a in s.heap && s.heap[a].sequence == q ==> InFlight(s, a) && TimerId(a, q) in s.canceling)
  }

  lemma GoneStep(s: State, step: Step, q: nat)
    requires Inv(s) && Gone(s, q)
    ensures Gone(Apply(s, step), q)
    ensures s.ran <= Apply(s, step).ran
    ensures forall i :: |s.ran| <= i < |Apply(s, step).ran| ==> Apply(s, step).ran[i].sequence != q
  {
    hide Inv;
    var s' := Apply(s, step);
    forall a | a in s'.heap ensures s'.heap[a].sequence != q {
      assert a in s.heap ==> s'.heap[a].sequence == s.heap[a].sequence;
    }
  }

  lemma {:induction false} GoneNeverRuns(s: State, steps: seq<Step>, q: nat)
    requires Inv(s) && Gone(s, q)
    ensures |s.ran| <= |Run(s, steps).ran|
    ensures forall i :: |s.ran| <= i < |Run(s, steps).ran| ==> Run(s, steps).ran[i].sequence != q
    decreases |steps|
  {
    if steps != [] {
      GoneStep(s, steps[0], q);
      StepInv(s, steps[0]);
      var s1 := Apply(s, steps[0]);
      GoneNeverRuns(s1, steps[1..], q);
      RanGrows(s1, steps[1..]);
      var s2 := Run(s1, steps[1..]);
      hide Inv, Gone, Apply;
      forall i | |s.ran| <= i < |s2.ran| ensures s2.ran[i].sequence != q {
        assert i < |s1.ran| ==> s2.ran[i] == s1.ran[i];
      }
    }
  }

  lemma {:induction false} RanGrows(s: State, steps: seq<Step>)
    ensures s.ran <= Run(s, steps).ran
    decreases |steps|
  {
    if steps != [] {
      RanGrows(Apply(s, steps[0]), steps[1..]);
    }
  }

  lemma CancelledStep(s: State, step: Step, q: nat)
    requires Inv(s) && Cancelled(s, q)
    ensures Cancelled(Apply(s, step), q)
    ensures step.BeginRead? && Enabled(s, step) ==> Gone(s, q)
  {
    if Enabled(s, step) {
      if step.ResetOne? {
        CancelledReset(s, q);
      } else if step.BeginRead? {
        hide Inv;
      } else if step.Cancel? {
        CancelledCancel(s, step.id, q);
      } else {
        CancelledOther(s, step, q);
      }
    }
  }

  lemma CancelledReset(s: State, q: nat)
    requires Inv(s) && Cancelled(s, q) && Enabled(s, ResetOne)
    ensures Cancelled(ResetFirst(s), q)
  {
    FirstInFlight(s);
    assert Keyed(s) && Agree(s);
    hide Inv, Keyed, Agree;
    DropFirst(s);
    var s' := ResetFirst(s);
    forall a | a in s'.heap && s'.heap[a].sequence == q ensures InFlight(s', a) && TimerId(a, q) in s'.canceling {
      assert a in s.heap && s.heap[a].sequence == q;
    }
  }

  lemma CancelledCancel(s: State, id: TimerId, q: nat)
    requires Inv(s) && Cancelled(s, q)
    ensures Cancelled(CancelInLoop(s, id), q)
  {
    var s' := CancelInLoop(s, id);
    assert id in s.active ==> Queued(s, id.addr) && !InFlight(s, id.addr);
    hide Inv, Keyed, Agree, Owned;
    forall a | a in s'.heap && s'.heap[a].sequence == q ensures InFlight(s', a) && TimerId(a, q) in s'.canceling {
      assert InFlight(s, a);
    }
  }

  lemma CancelledOther(s: State, step: Step, q: nat)
    requires Cancelled(s, q) && !step.ResetOne? && !step.BeginRead? && !step.Cancel?
    ensures Cancelled(Apply(s, step), q)
  {
    var s' := Apply(s, step);
    forall a | a in s'.heap && s'.heap[a].sequence == q ensures InFlight(s', a) && TimerId(a, q) in s'.canceling {
      assert a in s.heap && InFlight(s, a);
    }
  }

  /** Between the states `s` and `s'` timer `q` was run in no batch but the one already being called in `s`. */
  predicate OnlyInThisBatch(s: State, s': State, q: nat) {
    forall i :: |s.ran| <= i < |s'.ran| && s'.ran[i].sequence == q ==> s.phase.Calling? && s'.ran[i].batch == s.batches
  }

  /** Callbacks are made, and logged, only while a batch is being called, and under its number. */
  lemma CallingStep(s: State, step: Step)
    ensures var s' := Apply(s, step);
            && (forall i :: |s.ran| <= i < |s'.ran| ==> s.phase.Calling? && s'.ran[i].batch == s.batches)
            && (!(step.BeginRead? && Enabled(s, step)) ==>
                  s'.batches == s.batches && (s'.phase.Calling? ==> s.phase.Calling?))
  {
  }

  lemma {:induction false} CancelledRuns(s: State, steps: seq<Step>, q: nat)
    requires Inv(s) && Cancelled(s, q)
    ensures OnlyInThisBatch(s, Run(s, steps), q)
    decreases |steps|
  {
    if steps != [] {
      var s1 := Apply(s, steps[0]);
      CancelledStep(s, steps[0], q);
      StepInv(s, steps[0]);
      CallingStep(s, steps[0]);
      hide Inv, Cancelled, Apply;
      if steps[0].BeginRead? && Enabled(s, steps[0]) {
        GoneNeverRuns(s, steps, q);
      } else {
        CancelledRuns(s1, steps[1..], q);
        RanGrows(s1, steps[1..]);
      }
    }
  }

  lemma CancelMarks(s: State, id: TimerId)
    requires Inv(s) && Genuine(s, id) && Enabled(s, Cancel(id))
    requires !(id.addr in s.pending && s.heap[id.addr].sequence == id.sequence)
    ensures Cancelled(Apply(s, Cancel(id)), id.sequence)
  {
  }

  // ---------- Cancelling a timer that is not inserted yet ----------

  /** `handleRead` is called only when the timerfd has fired. */
  predicate Prompted(s: State, steps: seq<Step>)
    decreases |steps|
  {
    steps == [] || ((steps[0].BeginRead? && Enabled(s, steps[0]) ==> s.alarm.Fired?)
                    && Prompted(Apply(s, steps[0]), steps[1..]))
  }

  lemma {:induction false} PromptedConcat(s: State, a: seq<Step>, b: seq<Step>)
    requires Prompted(s, a) && Prompted(Run(s, a), b)
    ensures Prompted(s, a + b)
    decreases |a|
  {
    hide Apply, Enabled;
    if a == [] {
      assert a + b == b;
    } else {
      assert (a + b)[1..] == a[1..] + b;
      PromptedConcat(Apply(s, a[0]), a[1..], b);
    }
  }

  lemma PromptedAfter(s: State, step: Step, rest: seq<Step>)
    requires step.BeginRead? ==> s.alarm.Fired?
    requires Prompted(Apply(s, step), rest)
    ensures Prompted(s, [step] + rest)
  {
    hide Apply, Enabled;
    assert ([step] + rest)[1..] == rest;
  }

  /** From any state the loop can finish its batch; queued timers stay as they are. */
  lemma {:induction false} ReachIdle(s: State, addr: nat) returns (steps: seq<Step>)
    requires Inv(s) && Queued(s, addr)
    ensures var s' := Run(s, steps);
            Inv(s') && s'.phase.Idle? && Queued(s', addr) && s'.heap[addr] == s.heap[addr]
            && s'.clock == s.clock && s'.batches == s.batches && s.ran <= s'.ran
    ensures Prompted(s, steps)
    decreases StepsToIdle(s)
  {
    steps := [];
    if !s.phase.Idle? {
      var step := NextStep(s);
      StepInv(s, step);
      QueuedStays(s, step, addr);
      hide Inv, Queued, Enabled, Apply, StepsToIdle, Prompted;
      var rest := ReachIdle(Apply(s, step), addr);
      steps := [step] + rest;
      assert steps[1..] == rest;
      PromptedAfter(s, step, rest);
    }
  }

  function StepsToIdle(s: State): int {
    match s.phase
    case Idle => 0
    case Resetting(_, rest) => 1 + |rest|
    case Calling(_, expired, next, _) => 2 + 2 * |expired| - next
  }

  /** What the loop does next in a batch. */
  lemma NextStep(s: State) returns (step: Step)
    requires Inv(s) && !s.phase.Idle?
    ensures Enabled(s, step) && (step.RunNext? || step.StopCalling? || step.ResetOne? || step.Rearm?)
    ensures 0 <= StepsToIdle(Apply(s, step)) < StepsToIdle(s)
  {
    assert s.phase.Resetting? && s.phase.rest != [] ==> s.phase.rest[0] in Flying(s);
    assert s.phase.Calling? && s.phase.next < |s.phase.expired| ==> s.phase.expired[s.phase.next] in Flying(s);
    step := if s.phase.Resetting? then (if s.phase.rest == [] then Rearm else ResetOne)
            else if s.phase.next < |s.phase.expired| then RunNext else StopCalling;
    assert s.phase.Calling? ==> s.phase.next <= |s.phase.expired|;
    hide Inv, Keyed, Agree, Owned, Sequenced, Alarmed, Logged, InsertTimer, Free;
  }

  lemma QueuedStays(s: State, step: Step, addr: nat)
    requires Inv(s) && Queued(s, addr) && Enabled(s, step)
    requires step.RunNext? || step.StopCalling? || step.ResetOne? || step.Rearm?
    ensures var s' := Apply(s, step);
            Queued(s', addr) && s'.heap[addr] == s.heap[addr] && s'.clock == s.clock && s'.batches == s.batches
            && s.ran <= s'.ran
  {
    assert step.ResetOne? ==> InFlight(s, s.phase.rest[0].addr);
  }

  /** The history holds `r` at or after index `start`. */
  predicate RanSince(s: State, start: nat, r: Ran) {
    exists i :: start <= i < |s.ran| && s.ran[i] == r
  }

  /** A batch runs each of its timers. */
  lemma {:induction false} ReachCallback(s: State, j: nat) returns (steps: seq<Step>)
    requires Inv(s) && s.phase.Calling? && j < |s.phase.expired|
    ensures s.phase.expired[j].addr in s.heap
    ensures RanSince(Run(s, steps), s.phase.start, Ran(s.batches, s.heap[s.phase.expired[j].addr].sequence))
    ensures Prompted(s, steps)
    decreases j + 1 - s.phase.next
  {
    assert s.phase.expired[j] in Flying(s);
    if j < s.phase.next {
      steps := [];
      assert s.ran[s.phase.start + j] == Ran(s.batches, s.heap[s.phase.expired[j].addr].sequence);
    } else {
      CallNext(s);
      StepInv(s, RunNext);
      hide Inv, Apply, RanSince, Flying;
      var rest := ReachCallback(Apply(s, RunNext), j);
      steps := [RunNext] + rest;
      assert steps[1..] == rest;
      PromptedAfter(s, RunNext, rest);
    }
  }

  lemma CallNext(s: State)
    requires Inv(s) && s.phase.Calling? && s.phase.next < |s.phase.expired|
    ensures Apply(s, RunNext).phase == s.phase.(next := s.phase.next + 1)
    ensures Apply(s, RunNext).heap == s.heap && Apply(s, RunNext).batches == s.batches
  {
    assert s.phase.expired[s.phase.next] in Flying(s);
    assert Enabled(s, RunNext);
    hide Inv;
  }

  /** When the alarm has gone off, a due timer can be run by the batch that begins now. */
  lemma RunWhenDue(s: State, addr: nat) returns (steps: seq<Step>)
    requires Inv(s) && s.phase.Idle? && Queued(s, addr) && s.heap[addr].expiration <= s.clock && s.alarm.Fired?
    ensures RanSince(Run(s, steps), |s.ran|, Ran(s.batches + 1, s.heap[addr].sequence))
    ensures Prompted(s, steps)
  {
    StepInv(s, BeginRead);
    var j := DueJoinsBatch(s, addr);
    hide Inv, Apply, Enabled, Queued, RanSince;
    var last := ReachCallback(Apply(s, BeginRead), j);
    steps := [BeginRead] + last;
    assert steps[1..] == last;
    PromptedAfter(s, BeginRead, last);
  }

  lemma DueJoinsBatch(s: State, addr: nat) returns (j: nat)
    requires Inv(s) && s.phase.Idle? && Queued(s, addr) && s.heap[addr].expiration <= s.clock
    ensures var s1 := Apply(s, BeginRead);
            && s1.phase.Calling? && j < |s1.phase.expired| && s1.phase.expired[j].addr == addr
            && s1.heap == s.heap && s1.batches == s.batches + 1 && s1.phase.start == |s.ran|
  {
    var e := Entry(s.heap[addr].expiration, addr);
    assert e in s.timers;
    hide Inv, ExpiredCount, Sorted;
    BatchIsExpired(s);
    assert e in Begin(s).phase.expired;
    j :| 0 <= j < |Begin(s).phase.expired| && Begin(s).phase.expired[j] == e;
  }

  /** A queued timer can be run by the next batch, once the alarm has gone off. */
  lemma ReachRun(s: State, addr: nat) returns (steps: seq<Step>)
    requires Inv(s) && Queued(s, addr)
    ensures RanSince(Run(s, steps), |s.ran|, Ran(s.batches + 1, s.heap[addr].sequence))
    ensures Prompted(s, steps)
  {
    assert addr in s.heap;
    hide Inv, Queued, RanSince, Apply, Run, Prompted;
    var first := ReachIdle(s, addr);
    var s1 := Run(s, first);
    var last := ReachAlarm(s1, addr);
    steps := first + last;
    RunConcat(s, first, last);
    PromptedConcat(s, first, last);
    RanSinceEarlier(Run(s1, last), |s1.ran|, |s.ran|, Ran(s.batches + 1, s.heap[addr].sequence));
  }

  /** Time passes until the timer is due and its alarm goes off; then its batch begins. */
  lemma ReachAlarm(s: State, addr: nat) returns (steps: seq<Step>)
    requires Inv(s) && s.phase.Idle? && Queued(s, addr)
    ensures RanSince(Run(s, steps), |s.ran|, Ran(s.batches + 1, s.heap[addr].sequence))
    ensures Prompted(s, steps)
  {
    assert addr in s.heap;
    hide Inv, Queued, RanSince, Apply, Run, Prompted;
    var delta := UntilAlarm(s, addr);
    StepInv(s, Tick(delta));
    var s1 := Apply(s, Tick(delta));
    StepInv(s1, Fire);
    var s2 := Apply(s1, Fire);
    var last := RunWhenDue(s2, addr);
    RunAfter(s1, Fire, last);
    PromptedAfter(s1, Fire, last);
    RunAfter(s, Tick(delta), [Fire] + last);
    PromptedAfter(s, Tick(delta), [Fire] + last);
    steps := [Tick(delta)] + ([Fire] + last);
  }

  /** With a timer queued the alarm is set, or has gone off: `Fire` then changes nothing. */
  lemma UntilAlarm(s: State, addr: nat) returns (delta: nat)
    requires Inv(s) && s.phase.Idle? && Queued(s, addr)
    ensures addr in s.heap
    ensures var s2 := Apply(Apply(s, Tick(delta)), Fire);
            && s2.alarm.Fired? && s2.phase.Idle? && s2.heap == s.heap && Queued(s2, addr)
            && s.heap[addr].expiration <= s2.clock && s2.ran == s.ran && s2.batches == s.batches
  {
    assert s.timers != [] && InTime(s.alarm, s.timers[0].when);
    hide Inv;
    var due := s.heap[addr].expiration;
    var late := if s.alarm.Armed? && s.alarm.deadline > due then s.alarm.deadline else due;
    delta := if late > s.clock then late - s.clock else 0;
  }

  lemma RunAfter(s: State, step: Step, rest: seq<Step>)
    ensures Run(s, [step] + rest) == Run(Apply(s, step), rest)
  {
    assert ([step] + rest)[1..] == rest;
  }

  lemma RanSinceEarlier(s: State, start: nat, earlier: nat, r: Ran)
    requires RanSince(s, start, r) && earlier <= start
    ensures RanSince(s, earlier, r)
  {
  }

  /**
   Cancelling a timer is final: from then on it runs in no batch but the one being called at that
   moment, in all runs, or in those alone in which `handleRead` waits for the alarm. That fails for
   exactly one kind of id, of a timer still on its way to the loop.
   */
  lemma CancelIsFinal(s: State, id: TimerId)
    requires Inv(s) && Genuine(s, id) && Enabled(s, Cancel(id))
    ensures (forall steps :: OnlyInThisBatch(s, Run(Apply(s, Cancel(id)), steps), id.sequence))
       <==> !(id.addr in s.pending && s.heap[id.addr].sequence == id.sequence)
    ensures (forall steps :: Prompted(Apply(s, Cancel(id)), steps) ==>
                               OnlyInThisBatch(s, Run(Apply(s, Cancel(id)), steps), id.sequence))
       <==> !(id.addr in s.pending && s.heap[id.addr].sequence == id.sequence)
  {
    hide Prompted;
    var s1 := Apply(s, Cancel(id));
    StepInv(s, Cancel(id));
    if id.addr in s.pending && s.heap[id.addr].sequence == id.sequence {
      var steps := RunDespiteCancel(s, id);
      assert !OnlyInThisBatch(s, Run(s1, steps), id.sequence);
    } else {
      CancelMarks(s, id);
      forall steps ensures OnlyInThisBatch(s, Run(s1, steps), id.sequence) {
        CancelledRuns(s1, steps, id.sequence);
      }
    }
  }

  lemma RunDespiteCancel(s: State, id: TimerId) returns (steps: seq<Step>)
    requires Inv(s) && Enabled(s, Cancel(id)) && id.addr in s.pending && s.heap[id.addr].sequence == id.sequence
    ensures !OnlyInThisBatch(s, Run(Apply(s, Cancel(id)), steps), id.sequence)
    ensures Prompted(Apply(s, Cancel(id)), steps)
  {
    var s1 := Apply(s, Cancel(id));
    CancelMissesPending(s, id);
    StepInv(s, Cancel(id));
    StepInv(s1, Insert(id.addr));
    var s2 := Apply(s1, Insert(id.addr));
    hide Inv, Apply, Enabled, Queued, Run, RanSince, Prompted;
    var rest := ReachRun(s2, id.addr);
    steps := [Insert(id.addr)] + rest;
    PromptedAfter(s1, Insert(id.addr), rest);
    RunAfter(s1, Insert(id.addr), rest);
    RanInLaterBatch(s, Run(s2, rest), id.sequence);
  }

  lemma RanInLaterBatch(s: State, s': State, q: nat)
    requires RanSince(s', |s.ran|, Ran(s.batches + 1, q))
    ensures !OnlyInThisBatch(s, s', q)
  {
    var i :| |s.ran| <= i < |s'.ran| && s'.ran[i] == Ran(s.batches + 1, q);
  }

  lemma CancelMissesPending(s: State, id: TimerId)
    requires Inv(s) && Enabled(s, Cancel(id)) && id.addr in s.pending && s.heap[id.addr].sequence == id.sequence
    ensures var s1 := Apply(s, Cancel(id));
            && Enabled(s1, Insert(id.addr)) && s1.heap == s.heap && s1.ran == s.ran && s1.batches == s.batches
            && var s2 := Apply(s1, Insert(id.addr));
               Queued(s2, id.addr) && s2.heap == s.heap && s2.ran == s.ran && s2.batches == s.batches
  {
    assert !Queued(s, id.addr);
  }
}
