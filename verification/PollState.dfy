/**
 The poll(2) poller: a dense array of `pollfd`, the descriptors' channels, and in each channel the
 position of its entry. A disabled channel keeps its entry under the descriptor `-fd - 1`, which
 poll(2) ignores.
 */
module PollState {
  import opened Channels

  datatype PollFd = PollFd(fd: int, events: Events, revents: int)

  datatype State = State(pollfds: seq<PollFd>, channels: map<int, Channel>, index: map<Channel, int>, wishes: Wishes)

  function Encode(fd: int): int {
    -fd - 1
  }

  /** The descriptor behind an entry, encoded or not. */
  function Decode(fd: int): int {
    if fd < 0 then -fd - 1 else fd
  }

  // ---------- The operations ----------

  predicate Knows(s: State, c: Channel) {
    c in s.wishes && c in s.index
  }

  /** What the assertions of `updateChannel` ask. */
  predicate UpdateAsserts(s: State, c: Channel)
    requires Knows(s, c)
  {
    var fd, i := s.wishes[c].fd, s.index[c];
    if i < 0 then fd !in s.channels
    else
      && fd in s.channels && s.channels[fd] == c
      && i < |s.pollfds|
      && (s.pollfds[i].fd == fd || s.pollfds[i].fd == Encode(fd))
  }

  function UpdateChannel(s: State, c: Channel, events: Events): State
    requires Knows(s, c) && UpdateAsserts(s, c)
  {
    var fd, i, wishes := s.wishes[c].fd, s.index[c], ApplyWish(s.wishes, Update(c, events));
    if i < 0 then
      State(s.pollfds + [PollFd(fd, events, 0)], s.channels[fd := c], s.index[c := |s.pollfds|], wishes)
    else
      var polled := if events == 0 then Encode(fd) else s.pollfds[i].fd;
      State(s.pollfds[i := PollFd(polled, events, 0)], s.channels, s.index, wishes)
  }

  /** The last entry is `c`'s own, or that of another known channel. */
  predicate LastKnown(s: State, c: Channel)
    requires Knows(s, c) && s.pollfds != []
  {
    var last := |s.pollfds| - 1;
    var fd := Decode(s.pollfds[last].fd);
    s.index[c] == last || (fd in s.channels - {s.wishes[c].fd} && s.channels[fd] in s.index)
  }

  /** What the assertions of `removeChannel` ask, and that it finds the channel to move. */
  predicate RemoveAsserts(s: State, c: Channel)
    requires Knows(s, c)
  {
    var wish, i := s.wishes[c], s.index[c];
    && wish.fd in s.channels && s.channels[wish.fd] == c
    && wish.events == 0
    && 0 <= i < |s.pollfds|
    && s.pollfds[i].fd == Encode(wish.fd) && s.pollfds[i].events == wish.events
    && LastKnown(s, c)
  }

  /** The last entry takes the removed one's place, and its channel's index follows. */
  function RemoveChannel(s: State, c: Channel): State
    requires Knows(s, c) && RemoveAsserts(s, c)
  {
    var fd, i, wishes := s.wishes[c].fd, s.index[c], ApplyWish(s.wishes, Remove(c));
    var last := |s.pollfds| - 1;
    if i == last then
      State(s.pollfds[..last], s.channels - {fd}, s.index, wishes)
    else
      var moved := s.channels[Decode(s.pollfds[last].fd)];
      State(s.pollfds[i := s.pollfds[last]][..last], s.channels - {fd}, s.index[moved := i], wishes)
  }

  /** The assertions hold: the step can be taken. */
  predicate Asserted(s: State, step: Step) {
    && Knows(s, step.channel)
    && match step
       case Update(c, _) => UpdateAsserts(s, c)
       case Remove(c) => RemoveAsserts(s, c)
  }

  function Apply(s: State, step: Step): State
    requires Asserted(s, step)
  {
    match step
    case Update(c, events) => UpdateChannel(s, c, events)
    case Remove(c) => RemoveChannel(s, c)
  }

  /** No assertion fails in the whole run. */
  predicate Completes(s: State, steps: seq<Step>)
    decreases |steps|
  {
    steps == [] || (Asserted(s, steps[0]) && Completes(Apply(s, steps[0]), steps[1..]))
  }

  function Run(s: State, steps: seq<Step>): State
    requires Completes(s, steps)
    decreases |steps|
  {
    if steps == [] then s else Run(Apply(s, steps[0]), steps[1..])
  }

  function Init(w: Wishes): State {
    State([], map[], map c <- w :: -1, w)
  }

  // ---------- Invariant ----------

  /** A registered channel is the channel of its descriptor, and its entry is where its index says. */
  predicate ChannelOk(s: State, c: Channel)
    requires Knows(s, c)
  {
    var wish, i := s.wishes[c], s.index[c];
    && wish.fd >= 0
    && match wish.life
       case Fresh => i == -1
       case Removed => i >= 0
       case Registered(disabled) =>
         && wish.fd in s.channels && s.channels[wish.fd] == c
         && 0 <= i < |s.pollfds|
         && s.pollfds[i].fd == (if disabled then Encode(wish.fd) else wish.fd)
         && s.pollfds[i].events == wish.events
  }

  predicate MapOk(s: State, fd: int)
    requires fd in s.channels
  {
    && s.channels[fd] in s.wishes
    && s.wishes[s.channels[fd]].fd == fd
    && s.wishes[s.channels[fd]].life.Registered?
  }

  /** Each entry belongs to a channel that points back at it. */
  predicate EntryOk(s: State, i: nat)
    requires i < |s.pollfds|
  {
    var fd := Decode(s.pollfds[i].fd);
    fd in s.channels && s.channels[fd] in s.index && s.index[s.channels[fd]] == i
  }

  predicate Inv(s: State) {
    && s.index.Keys == s.wishes.Keys
    && (forall c <- s.wishes :: ChannelOk(s, c))
    && (forall fd <- s.channels :: MapOk(s, fd))
    && (forall i :: 0 <= i < |s.pollfds| ==> EntryOk(s, i))
  }

  lemma InitInv(w: Wishes)
    requires AllFresh(w)
    ensures Inv(Init(w))
  {
  }

  /** Two registered channels never share an index. */
  lemma IndexUnique(s: State, c: Channel, d: Channel)
    requires Inv(s) && c in s.wishes && d in s.wishes
    requires s.wishes[c].life.Registered? && s.wishes[d].life.Registered?
    requires s.index[c] == s.index[d]
    ensures c == d
  {
    assert ChannelOk(s, c) && ChannelOk(s, d);
  }

  lemma RegisterInv(s: State, c: Channel, events: Events)
    requires Inv(s) && Knows(s, c) && UpdateAsserts(s, c) && s.index[c] < 0
    ensures Inv(UpdateChannel(s, c, events))
  {
    var s' := UpdateChannel(s, c, events);
    assert ChannelOk(s, c);
    forall d <- s'.wishes ensures ChannelOk(s', d) {
      assert ChannelOk(s, d);
    }
    forall fd <- s'.channels ensures MapOk(s', fd) {
      assert fd != s.wishes[c].fd ==> MapOk(s, fd);
    }
    forall i | 0 <= i < |s'.pollfds| ensures EntryOk(s', i) {
      assert i < |s.pollfds| ==> EntryOk(s, i);
    }
  }

  lemma ModifyInv(s: State, c: Channel, events: Events)
    requires Inv(s) && Knows(s, c) && UpdateAsserts(s, c) && s.index[c] >= 0
    ensures Inv(UpdateChannel(s, c, events))
  {
    var s' := UpdateChannel(s, c, events);
    assert MapOk(s, s.wishes[c].fd) && ChannelOk(s, c);
    forall d <- s'.wishes ensures ChannelOk(s', d) {
      assert ChannelOk(s, d);
      if d != c && s.wishes[d].life.Registered? && s.index[d] == s.index[c] {
        IndexUnique(s, c, d);
      }
    }
    forall fd <- s'.channels ensures MapOk(s', fd) {
      assert MapOk(s, fd);
    }
    forall i | 0 <= i < |s'.pollfds| ensures EntryOk(s', i) {
      assert EntryOk(s, i);
    }
  }

  lemma RemoveInv(s: State, c: Channel)
    requires Inv(s) && Knows(s, c) && RemoveAsserts(s, c)
    ensures Inv(RemoveChannel(s, c))
  {
    var s' := RemoveChannel(s, c);
    assert MapOk(s, s.wishes[c].fd) && ChannelOk(s, c);
    assert EntryOk(s, |s.pollfds| - 1);
    forall d <- s'.wishes ensures ChannelOk(s', d) {
      assert ChannelOk(s, d);
    }
    forall fd <- s'.channels ensures MapOk(s', fd) {
      assert MapOk(s, fd);
    }
    forall i | 0 <= i < |s'.pollfds| ensures EntryOk(s', i) {
      assert EntryOk(s, i);
    }
  }

  lemma StepInv(s: State, step: Step)
    requires Inv(s) && Asserted(s, step)
    ensures Inv(Apply(s, step))
    ensures Apply(s, step).wishes == ApplyWish(s.wishes, step)
  {
    match step
    case Update(c, events) =>
      if s.index[c] < 0 {
        RegisterInv(s, c, events);
      } else {
        ModifyInv(s, c, events);
      }
    case Remove(c) => RemoveInv(s, c);
  }

  /** The assertions hold exactly when the owner keeps the rules. */
  lemma AssertedIffAllowed(s: State, step: Step)
    requires Inv(s)
    ensures Asserted(s, step) <==> PollAllows(s.wishes, step)
  {
    var c := step.channel;
    if c in s.wishes {
      assert ChannelOk(s, c);
      assert s.wishes[c].fd in s.channels ==> MapOk(s, s.wishes[c].fd);
      if !s.wishes[c].life.Registered? {
        FreeIffUnmapped(s, c);
      }
      hide DescriptorFree;
      if PollAllows(s.wishes, step) && step.Remove? {
        LastIsKnown(s, c);
      }
    }
  }

  lemma FreeIffUnmapped(s: State, c: Channel)
    requires Inv(s) && c in s.wishes && !s.wishes[c].life.Registered?
    ensures DescriptorFree(s.wishes, c) <==> s.wishes[c].fd !in s.channels
  {
    var fd := s.wishes[c].fd;
    if fd in s.channels {
      assert MapOk(s, fd);
    } else {
      forall d <- s.wishes | d != c && s.wishes[d].life.Registered? ensures s.wishes[d].fd != fd {
        assert ChannelOk(s, d);
      }
    }
  }

  lemma LastIsKnown(s: State, c: Channel)
    requires Inv(s) && c in s.wishes && s.wishes[c].life.Registered?
    ensures s.pollfds != [] && LastKnown(s, c)
  {
    assert ChannelOk(s, c);
    assert EntryOk(s, |s.pollfds| - 1);
  }

  // ---------- Whole runs ----------

  /** No assertion fails exactly when the owners keep the rules all along; and the poller then follows their wishes. */
  lemma {:induction false} RunIffAllowed(s: State, steps: seq<Step>)
    requires Inv(s)
    ensures Completes(s, steps) <==> PollAllowsAll(s.wishes, steps)
    ensures Completes(s, steps) ==>
              && Inv(Run(s, steps))
              && (forall step <- steps :: step.channel in s.wishes)
              && Run(s, steps).wishes == ApplyWishes(s.wishes, steps)
    decreases |steps|
  {
    if steps != [] {
      AssertedIffAllowed(s, steps[0]);
      if Asserted(s, steps[0]) {
        StepInv(s, steps[0]);
        RunIffAllowed(Apply(s, steps[0]), steps[1..]);
        hide Inv, Asserted, PollAllows, Apply, ApplyWish;
      }
    }
  }

  /** Entries, descriptors and registered channels correspond one to one. */
  lemma DenseBijection(s: State)
    requires Inv(s)
    ensures forall i, j :: 0 <= i < j < |s.pollfds| ==> Decode(s.pollfds[i].fd) != Decode(s.pollfds[j].fd)
    ensures forall c <- s.wishes ::
              s.wishes[c].life.Registered? <==> s.wishes[c].fd in s.channels && s.channels[s.wishes[c].fd] == c
    ensures (set i | 0 <= i < |s.pollfds| :: Decode(s.pollfds[i].fd)) == s.channels.Keys
  {
    forall i, j | 0 <= i < j < |s.pollfds| ensures Decode(s.pollfds[i].fd) != Decode(s.pollfds[j].fd) {
      assert EntryOk(s, i) && EntryOk(s, j);
    }
    forall c <- s.wishes
      ensures s.wishes[c].life.Registered? <==> s.wishes[c].fd in s.channels && s.channels[s.wishes[c].fd] == c
    {
      assert ChannelOk(s, c);
      assert s.wishes[c].fd in s.channels ==> MapOk(s, s.wishes[c].fd);
    }
    var fds := set i | 0 <= i < |s.pollfds| :: Decode(s.pollfds[i].fd);
    forall fd ensures fd in fds <==> fd in s.channels {
      if fd in fds {
        var i :| 0 <= i < |s.pollfds| && fd == Decode(s.pollfds[i].fd);
        assert EntryOk(s, i);
      }
      if fd in s.channels {
        assert MapOk(s, fd) && ChannelOk(s, s.channels[fd]);
        assert Decode(s.pollfds[s.index[s.channels[fd]]].fd) == fd;
      }
    }
  }

  /** Removing changes the index of the last entry's channel and no other, and no other channel's entry. */
  lemma RemoveMovesOnlyLast(s: State, c: Channel, d: Channel)
    requires Inv(s) && Asserted(s, Remove(c)) && d in s.wishes
    ensures var s' := RemoveChannel(s, c);
            && (s'.index[d] != s.index[d] ==>
                  && d != c && s.wishes[d].life.Registered?
                  && s.index[d] == |s.pollfds| - 1 && s'.index[d] == s.index[c])
            && (d != c && s.wishes[d].life.Registered? ==>
                  && 0 <= s'.index[d] < |s'.pollfds| == |s.pollfds| - 1
                  && s'.pollfds[s'.index[d]] == s.pollfds[s.index[d]])
  {
    var last := |s.pollfds| - 1;
    assert EntryOk(s, last);
    assert ChannelOk(s, c) && ChannelOk(s, d);
    var moved := s.channels[Decode(s.pollfds[last].fd)];
    assert MapOk(s, Decode(s.pollfds[last].fd));
    if d != moved && s.wishes[d].life.Registered? && s.index[d] == last {
      IndexUnique(s, d, moved);
    }
    if d != c && s.wishes[d].life.Registered? && s.index[d] == s.index[c] {
      IndexUnique(s, d, c);
    }
  }

  /** poll(2) is asked about this descriptor, for these events. */
  predicate Polled(s: State, fd: int, events: Events) {
    exists i :: 0 <= i < |s.pollfds| && s.pollfds[i].fd == fd && s.pollfds[i].events == events
  }

  /** A registered channel's wish reaches poll(2) exactly as long as the channel was never disabled. */
  lemma PolledIffNeverDisabled(s: State, c: Channel, events: Events)
    requires Inv(s) && c in s.wishes && s.wishes[c].life.Registered?
    ensures Polled(s, s.wishes[c].fd, events) <==> !s.wishes[c].life.disabled && events == s.wishes[c].events
  {
    assert ChannelOk(s, c);
    var fd := s.wishes[c].fd;
    forall i | 0 <= i < |s.pollfds| && s.pollfds[i].fd == fd ensures i == s.index[c] {
      assert EntryOk(s, i);
    }
  }

  /** So a channel that is disabled and enabled again is never polled. */
  lemma ReenabledIsIgnored(c: Channel, fd: nat, events: Events)
    requires events > 0
    ensures var w := map[c := Wish(fd, 0, Fresh)];
            var steps := [Update(c, events), Update(c, 0), Update(c, events)];
            && Completes(Init(w), steps)
            && Run(Init(w), steps).wishes == map[c := Wish(fd, events, Registered(true))]
            && !Polled(Run(Init(w), steps), fd, events)
  {
    var w := map[c := Wish(fd, 0, Fresh)];
    var first, second := Update(c, events), Update(c, 0);
    var w1 := ApplyWish(w, first);
    var w2 := ApplyWish(w1, second);
    var w3 := ApplyWish(w2, first);
    assert [first, second, first][1..] == [second, first] && [second, first][1..] == [first] && [first][1..] == [];
    assert PollAllowsAll(w3, []) && PollAllowsAll(w2, [first]) && PollAllowsAll(w1, [second, first]);
    assert ApplyWishes(w3, []) == w3 && ApplyWishes(w2, [first]) == w3 && ApplyWishes(w1, [second, first]) == w3;
    InitInv(w);
    RunIffAllowed(Init(w), [first, second, first]);
    hide Completes, Run, Inv, PollAllowsAll;
    PolledIffNeverDisabled(Run(Init(w), [first, second, first]), c, events);
  }

  /** And a channel whose only update asked for nothing cannot be removed. */
  lemma IdleFromTheStart(c: Channel, fd: nat)
    ensures var w := map[c := Wish(fd, 0, Fresh)];
            && Completes(Init(w), [Update(c, 0)])
            && Run(Init(w), [Update(c, 0)]).wishes == map[c := Wish(fd, 0, Registered(false))]
            && !Asserted(Run(Init(w), [Update(c, 0)]), Remove(c))
  {
    var w := map[c := Wish(fd, 0, Fresh)];
    var s := Apply(Init(w), Update(c, 0));
    assert [Update(c, 0)][1..] == [];
    assert Completes(s, []) && Run(s, []) == s;
    assert s.pollfds == [PollFd(fd, 0, 0)] && s.index[c] == 0;
  }

  // ---------- Events ----------

  /** How many entries from `i` on have something to report. */
  function Reports(pollfds: seq<PollFd>, i: nat): nat
    requires i <= |pollfds|
    decreases |pollfds| - i
  {
    if i == |pollfds| then 0 else (if pollfds[i].revents > 0 then 1 else 0) + Reports(pollfds, i + 1)
  }

  /** What poll(2) leaves: it fills in `revents`, not for the entries to ignore. */
  predicate KernelFilled(before: seq<PollFd>, after: seq<PollFd>) {
    && |after| == |before|
    && forall i :: 0 <= i < |after| ==>
         && after[i].fd == before[i].fd && after[i].events == before[i].events
         && after[i].revents >= 0
         && (after[i].fd < 0 ==> after[i].revents == 0)
  }

  /** Only descriptors of registered channels report. */
  predicate ReportersKnown(pollfds: seq<PollFd>, channels: map<int, Channel>) {
    forall i :: 0 <= i < |pollfds| && pollfds[i].revents > 0 ==> pollfds[i].fd >= 0 && pollfds[i].fd in channels
  }

  /** The channels of the reporting entries from `i` on. */
  function Active(pollfds: seq<PollFd>, channels: map<int, Channel>, i: nat): seq<Channel>
    requires i <= |pollfds| && ReportersKnown(pollfds, channels)
    decreases |pollfds| - i
  {
    if i == |pollfds| then []
    else (if pollfds[i].revents > 0 then [channels[pollfds[i].fd]] else []) + Active(pollfds, channels, i + 1)
  }

  lemma ActiveStep(pollfds: seq<PollFd>, channels: map<int, Channel>, i: nat, found: seq<Channel>)
    requires i < |pollfds| && ReportersKnown(pollfds, channels)
    ensures found + Active(pollfds, channels, i)
            == (if pollfds[i].revents > 0 then found + [channels[pollfds[i].fd]] else found)
            + Active(pollfds, channels, i + 1)
  {
    var rest := Active(pollfds, channels, i + 1);
    assert pollfds[i].revents > 0 ==> Active(pollfds, channels, i) == [channels[pollfds[i].fd]] + rest;
    assert pollfds[i].revents <= 0 ==> Active(pollfds, channels, i) == [] + rest == rest;
    hide Active;
  }

  lemma {:induction false} NoReportsNoneActive(pollfds: seq<PollFd>, channels: map<int, Channel>, i: nat)
    requires i <= |pollfds| && ReportersKnown(pollfds, channels)
    requires Reports(pollfds, i) == 0
    ensures Active(pollfds, channels, i) == []
    decreases |pollfds| - i
  {
    if i < |pollfds| {
      NoReportsNoneActive(pollfds, channels, i + 1);
    }
  }

  /** poll(2) changes nothing the poller relies on. */
  lemma FilledInv(s: State, pollfds: seq<PollFd>)
    requires Inv(s) && KernelFilled(s.pollfds, pollfds)
    ensures Inv(s.(pollfds := pollfds))
    ensures ReportersKnown(pollfds, s.channels)
  {
    var s' := s.(pollfds := pollfds);
    forall c <- s'.wishes ensures ChannelOk(s', c) {
      assert ChannelOk(s, c);
    }
    forall fd <- s'.channels ensures MapOk(s', fd) {
      assert MapOk(s, fd);
    }
    forall i | 0 <= i < |s'.pollfds| ensures EntryOk(s', i) {
      assert EntryOk(s, i);
    }
    forall i | 0 <= i < |pollfds| && pollfds[i].revents > 0 ensures pollfds[i].fd in s.channels {
      assert EntryOk(s, i);
    }
  }

  /** The channels whose entries from `from` on have something to report, in the order of their entries. */
  predicate ActiveFrom(s: State, from: nat, active: seq<Channel>)
    requires s.index.Keys == s.wishes.Keys
  {
    && (forall i :: 0 <= i < |active| ==> IsActive(s, from, active[i]))
    && (forall c <- s.wishes :: IsActive(s, from, c) ==> c in active)
    && (forall i, j :: 0 <= i < j < |active| ==> s.index[active[i]] < s.index[active[j]])
  }

  predicate IsActive(s: State, from: nat, c: Channel)
    requires s.index.Keys == s.wishes.Keys
  {
    && c in s.wishes && s.wishes[c].life.Registered?
    && from <= s.index[c] < |s.pollfds|
    && s.pollfds[s.index[c]].revents > 0
  }

  lemma ActiveNext(s: State, k: nat, rest: seq<Channel>)
    requires Inv(s) && k < |s.pollfds| && ActiveFrom(s, k + 1, rest)
    requires s.pollfds[k].revents > 0 ==> s.pollfds[k].fd >= 0
    ensures s.pollfds[k].revents > 0 ==> s.pollfds[k].fd in s.channels
    ensures ActiveFrom(s, k, if s.pollfds[k].revents > 0 then [s.channels[s.pollfds[k].fd]] + rest else rest)
  {
    assert EntryOk(s, k);
    var c := s.channels[Decode(s.pollfds[k].fd)];
    assert MapOk(s, Decode(s.pollfds[k].fd));
    forall d <- s.wishes | IsActive(s, k, d) ensures d == c || IsActive(s, k + 1, d) {
      if s.index[d] == k {
        IndexUnique(s, c, d);
      }
    }
    hide Inv;
    assert s.pollfds[k].revents > 0 ==> IsActive(s, k, c);
    var active := if s.pollfds[k].revents > 0 then [c] + rest else rest;
    forall i | 0 <= i < |active| ensures IsActive(s, k, active[i]) {
      assert active[i] == c || IsActive(s, k + 1, active[i]);
    }
    forall d <- s.wishes | IsActive(s, k, d) ensures d in active {
      assert d == c || d in rest;
    }
  }

  /** A channel is active exactly when its own entry has something to report; in entry order, each once. */
  lemma {:induction false} ActiveExactly(s: State, k: nat)
    requires Inv(s) && k <= |s.pollfds|
    requires ReportersKnown(s.pollfds, s.channels)
    ensures ActiveFrom(s, k, Active(s.pollfds, s.channels, k))
    decreases |s.pollfds| - k
  {
    if k < |s.pollfds| {
      ActiveExactly(s, k + 1);
      var rest := Active(s.pollfds, s.channels, k + 1);
      ActiveNext(s, k, rest);
      hide Inv, ActiveFrom;
      assert [] + rest == rest;
    }
  }
}
