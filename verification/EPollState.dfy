/**
 The epoll(4) poller: a channel's index says whether the kernel's interest set holds it (`K_ADDED`), it
 is known but was taken out (`K_DELETED`), or it is unknown (`K_NEW`).
 */
module EPollState {
  import opened Channels

  const K_NEW := -1
  const K_ADDED := 1
  const K_DELETED := 2

  datatype Interest = Interest(events: Events, channel: Channel)

  /** `failed`: epoll_ctl refused an operation. */
  datatype State = State(
    channels: map<int, Channel>,
    kernel: map<int, Interest>,
    failed: bool,
    index: map<Channel, int>,
    wishes: Wishes)

  datatype Op = Add | Mod | Del

  /** epoll_ctl refuses to add what is there, and to change or delete what is not. */
  predicate CtlValid(kernel: map<int, Interest>, op: Op, fd: int) {
    op.Add? <==> fd !in kernel
  }

  function Ctl(kernel: map<int, Interest>, op: Op, fd: int, interest: Interest): map<int, Interest> {
    if !CtlValid(kernel, op, fd) then kernel
    else if op.Del? then kernel - {fd}
    else kernel[fd := interest]
  }

  // ---------- The operations ----------

  predicate Knows(s: State, c: Channel) {
    c in s.wishes && c in s.index
  }

  predicate Known(s: State, c: Channel)
    requires Knows(s, c)
  {
    s.wishes[c].fd in s.channels && s.channels[s.wishes[c].fd] == c
  }

  /** What the assertions of `updateChannel` ask. */
  predicate UpdateAsserts(s: State, c: Channel)
    requires Knows(s, c)
  {
    if s.index[c] == K_NEW then s.wishes[c].fd !in s.channels
    else Known(s, c) && (s.index[c] == K_DELETED || s.index[c] == K_ADDED)
  }

  function UpdateChannel(s: State, c: Channel, events: Events): State
    requires Knows(s, c) && UpdateAsserts(s, c)
  {
    var fd := s.wishes[c].fd;
    var op := if s.index[c] != K_ADDED then Add else if events == 0 then Del else Mod;
    State(
      s.channels[fd := c],
      Ctl(s.kernel, op, fd, Interest(events, c)),
      s.failed || !CtlValid(s.kernel, op, fd),
      s.index[c := if op.Del? then K_DELETED else K_ADDED],
      ApplyWish(s.wishes, Update(c, events)))
  }

  /** What the assertions of `removeChannel` ask. */
  predicate RemoveAsserts(s: State, c: Channel)
    requires Knows(s, c)
  {
    Known(s, c) && s.wishes[c].events == 0 && (s.index[c] == K_ADDED || s.index[c] == K_DELETED)
  }

  function RemoveChannel(s: State, c: Channel): State
    requires Knows(s, c) && RemoveAsserts(s, c)
  {
    var fd, added := s.wishes[c].fd, s.index[c] == K_ADDED;
    State(
      s.channels - {fd},
      if added then Ctl(s.kernel, Del, fd, Interest(0, c)) else s.kernel,
      s.failed || (added && !CtlValid(s.kernel, Del, fd)),
      s.index[c := K_NEW],
      ApplyWish(s.wishes, Remove(c)))
  }

  /** The assertions hold: the step can be taken. */
  predicate Asserted(s: State, step: Step) {
    && Knows(s, step.channel)
    && match step
       case Update(c, _) => UpdateAsserts(s, c)
       case Remove(c) => RemoveAsserts(s, c)
  }

  function Apply(s: State, step: Step): State
    requires Asserted(s, step)
  {
    match step
    case Update(c, events) => UpdateChannel(s, c, events)
    case Remove(c) => RemoveChannel(s, c)
  }

  /** No assertion fails in the whole run. */
  predicate Completes(s: State, steps: seq<Step>)
    decreases |steps|
  {
    steps == [] || (Asserted(s, steps[0]) && Completes(Apply(s, steps[0]), steps[1..]))
  }

  function Run(s: State, steps: seq<Step>): State
    requires Completes(s, steps)
    decreases |steps|
  {
    if steps == [] then s else Run(Apply(s, steps[0]), steps[1..])
  }

  function Init(w: Wishes): State {
    State(map[], map[], false, map c <- w :: K_NEW, w)
  }

  // ---------- Invariant ----------

  /** The index of a registered channel tells what the kernel knows of it. */
  predicate ChannelOk(s: State, c: Channel)
    requires Knows(s, c)
  {
    var wish := s.wishes[c];
    if wish.life.Registered? then
      && Known(s, c)
      && (s.index[c] == K_ADDED || s.index[c] == K_DELETED)
      && (s.index[c] == K_ADDED ==> wish.fd in s.kernel && s.kernel[wish.fd] == Interest(wish.events, c))
      && (s.index[c] == K_DELETED ==> wish.fd !in s.kernel && wish.events == 0)
    else s.index[c] == K_NEW
  }

  predicate MapOk(s: State, fd: int)
    requires fd in s.channels
  {
    && s.channels[fd] in s.wishes
    && s.wishes[s.channels[fd]].fd == fd
    && s.wishes[s.channels[fd]].life.Registered?
  }

  predicate Inv(s: State) {
    && !s.failed
    && s.index.Keys == s.wishes.Keys
    && (forall c <- s.wishes :: ChannelOk(s, c))
    && (forall fd <- s.channels :: MapOk(s, fd))
    && (forall fd <- s.kernel :: fd in s.channels)
  }

  lemma InitInv(w: Wishes)
    requires AllFresh(w)
    ensures Inv(Init(w))
  {
  }

  /** Every operation issued is one the kernel accepts. */
  lemma StepInv(s: State, step: Step)
    requires Inv(s) && Asserted(s, step)
    ensures Inv(Apply(s, step))
    ensures Apply(s, step).wishes == ApplyWish(s.wishes, step)
  {
    var s' := Apply(s, step);
    var fd := s.wishes[step.channel].fd;
    assert ChannelOk(s, step.channel);
    assert fd in s.channels ==> MapOk(s, fd);
    forall d <- s'.wishes ensures ChannelOk(s', d) {
      assert ChannelOk(s, d);
    }
    forall e <- s'.channels ensures MapOk(s', e) {
      assert e in s.channels ==> MapOk(s, e);
    }
  }

  lemma FreeIffUnmapped(s: State, c: Channel)
    requires Inv(s) && c in s.wishes && !s.wishes[c].life.Registered?
    ensures DescriptorFree(s.wishes, c) <==> s.wishes[c].fd !in s.channels
  {
    var fd := s.wishes[c].fd;
    if fd in s.channels {
      assert MapOk(s, fd);
    } else {
      forall d <- s.wishes | d != c && s.wishes[d].life.Registered? ensures s.wishes[d].fd != fd {
        assert ChannelOk(s, d);
      }
    }
  }

  /** The assertions hold exactly when the owner keeps the rules. */
  lemma AssertedIffAllowed(s: State, step: Step)
    requires Inv(s)
    ensures Asserted(s, step) <==> EPollAllows(s.wishes, step)
  {
    var c := step.channel;
    if c in s.wishes {
      assert ChannelOk(s, c);
      assert s.wishes[c].fd in s.channels ==> MapOk(s, s.wishes[c].fd);
      if !s.wishes[c].life.Registered? {
        FreeIffUnmapped(s, c);
      }
      hide DescriptorFree;
    }
  }

  // ---------- Whole runs ----------

  /** No assertion fails exactly when the owners keep the rules all along; and no epoll_ctl fails then. */
  lemma {:induction false} RunIffAllowed(s: State, steps: seq<Step>)
    requires Inv(s)
    ensures Completes(s, steps) <==> EPollAllowsAll(s.wishes, steps)
    ensures Completes(s, steps) ==>
              && Inv(Run(s, steps)) && !Run(s, steps).failed
              && (forall step <- steps :: step.channel in s.wishes)
              && Run(s, steps).wishes == ApplyWishes(s.wishes, steps)
    decreases |steps|
  {
    if steps != [] {
      AssertedIffAllowed(s, steps[0]);
      if Asserted(s, steps[0]) {
        StepInv(s, steps[0]);
        RunIffAllowed(Apply(s, steps[0]), steps[1..]);
        hide Inv, Asserted, EPollAllows, Apply, ApplyWish;
      }
    }
  }

  /** The kernel's set is exactly the added channels, with the events they now want; a deleted one wants none. */
  lemma KernelExactly(s: State, c: Channel, fd: int, events: Events)
    requires Inv(s)
    ensures fd in s.kernel && s.kernel[fd] == Interest(events, c) <==>
            c in s.wishes && s.wishes[c].life.Registered? && s.index[c] == K_ADDED
            && fd == s.wishes[c].fd && events == s.wishes[c].events
    ensures c in s.wishes && s.index[c] == K_DELETED ==>
              s.wishes[c].events == 0 && s.wishes[c].fd !in s.kernel
  {
    if fd in s.kernel {
      assert MapOk(s, fd);
      assert ChannelOk(s, s.channels[fd]);
    }
    if c in s.wishes {
      assert ChannelOk(s, c);
    }
  }

  /** epoll is asked about this descriptor, for these events. */
  predicate Watched(s: State, fd: int, events: Events) {
    fd in s.kernel && s.kernel[fd].events == events
  }

  /** A registered channel's wish for events always reaches the kernel. */
  lemma WatchedIffWanted(s: State, c: Channel, events: Events)
    requires Inv(s) && c in s.wishes && s.wishes[c].life.Registered? && events > 0
    ensures Watched(s, s.wishes[c].fd, events) <==> events == s.wishes[c].events
  {
    assert ChannelOk(s, c);
  }

  /** Disabling an already deleted channel adds it again, with an empty mask. */
  lemma EmptyMaskToggles(s: State, c: Channel)
    requires Inv(s) && Asserted(s, Update(c, 0))
    ensures Watched(UpdateChannel(s, c, 0), s.wishes[c].fd, 0) <==> s.index[c] != K_ADDED
    ensures UpdateChannel(s, c, 0).index[c] == if s.index[c] == K_ADDED then K_DELETED else K_ADDED
  {
    assert ChannelOk(s, c);
  }
}

/** The two pollers under the same owners. */
module Pollers {
  import opened Channels
  import PollState
  import EPollState

  /** Both ask the kernel the same of every registered channel. */
  predicate SameInterest(p: PollState.State, e: EPollState.State) {
    forall c, events: Events :: c in p.wishes && p.wishes[c].life.Registered? && events > 0 ==>
      (PollState.Polled(p, p.wishes[c].fd, events) <==> EPollState.Watched(e, p.wishes[c].fd, events))
  }

  /**
   For owners who keep poll's rules neither poller fails an assertion, and they ask the kernel the same
   exactly when no channel that was disabled wants events again.
   */
  lemma SameInterestIff(w: Wishes, steps: seq<Step>)
    requires AllFresh(w) && PollAllowsAll(w, steps)
    ensures PollState.Completes(PollState.Init(w), steps) && EPollState.Completes(EPollState.Init(w), steps)
    ensures var p, e := PollState.Run(PollState.Init(w), steps), EPollState.Run(EPollState.Init(w), steps);
            && p.wishes == e.wishes
            && (SameInterest(p, e) <==>
                forall c <- p.wishes :: p.wishes[c].life == Registered(true) ==> p.wishes[c].events == 0)
  {
    PollIsStricter(w, steps);
    PollState.InitInv(w);
    EPollState.InitInv(w);
    PollState.RunIffAllowed(PollState.Init(w), steps);
    EPollState.RunIffAllowed(EPollState.Init(w), steps);
    SameWishesInterest(PollState.Run(PollState.Init(w), steps), EPollState.Run(EPollState.Init(w), steps));
  }

  lemma SameWishesInterest(p: PollState.State, e: EPollState.State)
    requires PollState.Inv(p) && EPollState.Inv(e) && p.wishes == e.wishes
    ensures SameInterest(p, e) <==>
            forall c <- p.wishes :: p.wishes[c].life == Registered(true) ==> p.wishes[c].events == 0
  {
    forall c, events: Events | c in p.wishes && p.wishes[c].life.Registered? && events > 0
      ensures PollState.Polled(p, p.wishes[c].fd, events)
         <==> !p.wishes[c].life.disabled && events == p.wishes[c].events
      ensures EPollState.Watched(e, p.wishes[c].fd, events) <==> events == p.wishes[c].events
    {
      PollState.PolledIffNeverDisabled(p, c, events);
      EPollState.WatchedIffWanted(e, c, events);
    }
    hide PollState.Inv, EPollState.Inv, PollState.Polled, EPollState.Watched;
    if SameInterest(p, e) {
      forall c <- p.wishes | p.wishes[c].life == Registered(true) ensures p.wishes[c].events == 0 {
        var wish := p.wishes[c];
        assert wish.events > 0 ==> EPollState.Watched(e, wish.fd, wish.events);
      }
    }
  }
}
