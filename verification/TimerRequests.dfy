/** What was asked for each timer, against what the queue keeps of it, over whole runs. */
module TimerRequests {
  import opened TimerEntries
  import opened TimerState
  import opened TimerRuns

  /** The arguments of one `addTimer`, and whether its timer has been restarted since. */
  datatype Request = Request(when: int, interval: nat, repeat: bool, restarted: bool)

  /** The requests so far, by sequence number from 1; read off the steps that can be taken. */
  function Noted(requests: seq<Request>, s: State, step: Step): seq<Request> {
    if !Enabled(s, step) then requests
    else
      match step
      case Construct(_, when, interval, repeat) => requests + [Request(when, interval, repeat, false)]
      case ResetOne =>
        var t := s.heap[s.phase.rest[0].addr];
        if t.repeat && 0 < t.sequence <= |requests| then
          requests[t.sequence - 1 := requests[t.sequence - 1].(restarted := true)]
        else requests
      case _ => requests
  }

  function Requests(requests: seq<Request>, s: State, steps: seq<Step>): seq<Request>
    decreases |steps|
  {
    if steps == [] then requests else Requests(Noted(requests, s, steps[0]), Apply(s, steps[0]), steps[1..])
  }

  /** A live timer keeps the interval and the flag asked for, and is due when asked until its first restart. */
  predicate AsAsked(requests: seq<Request>, s: State) {
    && |requests| == s.created
    && (forall a <- s.heap :: TimerAsAsked(requests, s.heap[a]))
  }

  predicate TimerAsAsked(requests: seq<Request>, t: Timer) {
    && 1 <= t.sequence <= |requests|
    && t.interval == requests[t.sequence - 1].interval
    && t.repeat == requests[t.sequence - 1].repeat
    && (!requests[t.sequence - 1].restarted ==> t.expiration == requests[t.sequence - 1].when)
  }

  lemma StepAsAsked(requests: seq<Request>, s: State, step: Step)
    requires Inv(s) && AsAsked(requests, s)
    ensures AsAsked(Noted(requests, s, step), Apply(s, step))
  {
    if Enabled(s, step) {
      if step.ResetOne? {
        ResetAsAsked(requests, s);
      } else {
        OtherAsAsked(requests, s, step);
      }
    }
  }

  lemma ResetHeap(s: State)
    requires Enabled(s, ResetOne)
    ensures var addr, s' := s.phase.rest[0].addr, ResetFirst(s);
            && s'.created == s.created
            && (forall a <- s'.heap :: a in s.heap && (a != addr ==> s'.heap[a] == s.heap[a]))
            && (addr in s'.heap ==>
                  s.heap[addr].repeat
                  && s'.heap[addr] == s.heap[addr].(expiration := s.phase.now + s.heap[addr].interval))
  {
    hide TimerEntries.Insert;
  }

  lemma ResetAsAsked(requests: seq<Request>, s: State)
    requires Inv(s) && AsAsked(requests, s) && Enabled(s, ResetOne)
    ensures AsAsked(Noted(requests, s, ResetOne), ResetFirst(s))
  {
    hide Inv, ResetFirst;
    ResetHeap(s);
    var addr, s', requests' := s.phase.rest[0].addr, ResetFirst(s), Noted(requests, s, ResetOne);
    var q := s.heap[addr].sequence;
    assert TimerAsAsked(requests, s.heap[addr]);
    assert s.heap[addr].repeat ==> requests' == requests[q - 1 := requests[q - 1].(restarted := true)];
    assert !s.heap[addr].repeat ==> requests' == requests;
    hide Enabled, Noted;
    forall a <- s'.heap ensures TimerAsAsked(requests', s'.heap[a]) {
      assert TimerAsAsked(requests, s.heap[a]);
      if a != addr {
        Distinct(s, a, addr);
      }
    }
  }

  lemma Distinct(s: State, a: nat, b: nat)
    requires Inv(s) && a in s.heap && b in s.heap && a != b
    ensures s.heap[a].sequence != s.heap[b].sequence
  {
    assert Sequenced(s);
  }

  lemma OtherAsAsked(requests: seq<Request>, s: State, step: Step)
    requires AsAsked(requests, s) && Enabled(s, step) && !step.ResetOne?
    ensures AsAsked(Noted(requests, s, step), Apply(s, step))
  {
    var s', requests' := Apply(s, step), Noted(requests, s, step);
    forall a <- s'.heap ensures TimerAsAsked(requests', s'.heap[a]) {
      assert a in s.heap ==> TimerAsAsked(requests, s.heap[a]);
    }
  }

  lemma {:induction false} RunAsAsked(requests: seq<Request>, s: State, steps: seq<Step>)
    requires Inv(s) && AsAsked(requests, s)
    ensures AsAsked(Requests(requests, s, steps), Run(s, steps))
    decreases |steps|
  {
    if steps != [] {
      StepAsAsked(requests, s, steps[0]);
      StepInv(s, steps[0]);
      hide Inv, AsAsked, Apply, Noted;
      RunAsAsked(Noted(requests, s, steps[0]), Apply(s, steps[0]), steps[1..]);
    }
  }

  /** In every run each live timer is the timer asked for. */
  lemma TimersAsAsked(clock: int, steps: seq<Step>)
    requires clock > 0
    ensures AsAsked(Requests([], Init(clock), steps), Run(Init(clock), steps))
  {
    InitInv(clock);
    RunAsAsked([], Init(clock), steps);
  }

  /**
   A queued timer that was never restarted is in the batch that begins now if and only if the time it was
   asked for has come: in none before that time, and in the first one from then on.
   */
  lemma JoinsBatchIff(clock: int, steps: seq<Step>, a: nat)
    requires clock > 0
    ensures var s, requests := Run(Init(clock), steps), Requests([], Init(clock), steps);
            s.phase.Idle? && Queued(s, a) ==>
              && 0 < s.heap[a].sequence <= |requests|
              && (!requests[s.heap[a].sequence - 1].restarted ==>
                    (InFlight(Apply(s, BeginRead), a) <==> requests[s.heap[a].sequence - 1].when <= s.clock))
  {
    TimersAsAsked(clock, steps);
    InitInv(clock);
    RunInv(Init(clock), steps);
    var s := Run(Init(clock), steps);
    hide Run, Requests, Inv;
    if s.phase.Idle? && Queued(s, a) {
      DueIff(s, a);
      hide Apply, Queued, InFlight;
      assert TimerAsAsked(Requests([], Init(clock), steps), s.heap[a]);
    }
  }

  lemma DueIff(s: State, a: nat)
    requires Inv(s) && s.phase.Idle? && Queued(s, a)
    ensures a in s.heap && (InFlight(Apply(s, BeginRead), a) <==> s.heap[a].expiration <= s.clock)
  {
    hide Inv, ExpiredCount;
    BatchIsExpired(s);
    var s' := Apply(s, BeginRead);
    var e := Entry(s.heap[a].expiration, a);
    assert e in s.timers;
    assert s'.heap == s.heap;
    assert InFlight(s', a) <==> e in s'.phase.expired;
  }
}
