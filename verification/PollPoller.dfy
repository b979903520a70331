/** The poll(2) poller itself, over channels whose indexes it sets. */
module PollPollers {
  import opened Channels
  import PollState

  class PollPoller {
    var pollfds: seq<PollState.PollFd>
    var channels: map<int, Channel>
    ghost var state: PollState.State

    /** The poller's and the channels' own fields are those of `state`. */
    ghost predicate Valid()
      reads this, state.wishes.Keys`index, state.wishes.Keys`events
    {
      && PollState.Inv(state)
      && pollfds == state.pollfds && channels == state.channels
      && forall c <- state.wishes :: Agrees(c)
    }

    ghost predicate Agrees(c: Channel)
      reads this, c`index, c`events
    {
      && c in state.index && c in state.wishes
      && c.index == state.index[c]
      && c.fd == state.wishes[c].fd && c.events == state.wishes[c].events
    }

    /** A poller for channels to come, not yet registered. */
    constructor (ghost all: set<Channel>)
      requires forall c <- all :: c.fd >= 0 && c.events == 0 && c.index == -1
      ensures Valid() && state == PollState.Init(map c <- all :: Wish(c.fd, 0, Fresh))
    {
      pollfds, channels := [], map[];
      state := PollState.Init(map c <- all :: Wish(c.fd, 0, Fresh));
      new;
      PollState.InitInv(state.wishes);
    }

    /** What `Update` relies on, and what it has to reach. */
    lemma UpdateFacts(c: Channel, events: Events) returns (after: PollState.State)
      requires Valid() && PollAllows(state.wishes, Channels.Update(c, events))
      ensures PollState.Asserted(state, Channels.Update(c, events))
      ensures after == PollState.UpdateChannel(state, c, events) && PollState.Inv(after)
      ensures Agrees(c) && c in after.wishes
      ensures c.index < 0 ==>
                && c.fd !in channels
                && after.pollfds == pollfds + [PollState.PollFd(c.fd, events, 0)]
                && after.channels == channels[c.fd := c]
                && after.index == state.index[c := |pollfds|]
      ensures c.index >= 0 ==>
                && c.fd in channels && channels[c.fd] == c
                && c.index < |pollfds| && (pollfds[c.index].fd == c.fd || pollfds[c.index].fd == -c.fd - 1)
                && after.pollfds == pollfds[c.index := PollState.PollFd(
                                              if events == 0 then -c.fd - 1 else pollfds[c.index].fd, events, 0)]
                && after.channels == channels && after.index == state.index
      ensures after.wishes == state.wishes[c := Wish(c.fd, events, after.wishes[c].life)]
    {
      PollState.AssertedIffAllowed(state, Channels.Update(c, events));
      PollState.StepInv(state, Channels.Update(c, events));
      hide PollState.Inv, PollAllows;
      assert Agrees(c);
      after := PollState.UpdateChannel(state, c, events);
    }

    /** What `Remove` relies on, and what it has to reach. */
    lemma RemoveFacts(c: Channel) returns (after: PollState.State, moved: Channel)
      requires Valid() && PollAllows(state.wishes, Channels.Remove(c))
      ensures PollState.Asserted(state, Channels.Remove(c))
      ensures after == PollState.RemoveChannel(state, c) && PollState.Inv(after)
      ensures Agrees(c) && c.fd in channels && channels[c.fd] == c
      ensures 0 <= c.index < |pollfds|
      ensures pollfds[c.index].fd == -c.fd - 1 && pollfds[c.index].events == c.events
      ensures after.channels == channels - {c.fd}
      ensures after.wishes == state.wishes[c := Wish(c.fd, c.events, Removed)]
      ensures after.pollfds == pollfds[c.index := pollfds[|pollfds| - 1]][..|pollfds| - 1]
      ensures moved in state.wishes
      ensures c.index < |pollfds| - 1 ==>
                var fd := PollState.Decode(pollfds[|pollfds| - 1].fd);
                fd in channels - {c.fd} && channels[fd] == moved && after.index == state.index[moved := c.index]
      ensures c.index == |pollfds| - 1 ==> after.index == state.index
    {
      PollState.AssertedIffAllowed(state, Channels.Remove(c));
      PollState.StepInv(state, Channels.Remove(c));
      assert state.index.Keys == state.wishes.Keys;
      hide PollState.Inv, PollAllows;
      assert Agrees(c);
      after := PollState.RemoveChannel(state, c);
      var fd := PollState.Decode(pollfds[|pollfds| - 1].fd);
      moved := if c.index == |pollfds| - 1 then c else channels[fd];
    }

    /** `Channel::update` after the mask changed: the source's assertions hold for an owner who keeps the rules. */
    method Update(c: Channel, events: Events)
      requires Valid() && PollAllows(state.wishes, Channels.Update(c, events))
      modifies this, c`events, c`index
      ensures PollState.Asserted(old(state), Channels.Update(c, events))
      ensures state == PollState.UpdateChannel(old(state), c, events)
      ensures Valid() && c.events == events
      ensures if old(c.index) < 0 then
                && pollfds == old(pollfds) + [PollState.PollFd(c.fd, events, 0)]
                && channels == old(channels)[c.fd := c] && c.index == old(|pollfds|)
              else
                && c.index == old(c.index) < old(|pollfds|) && channels == old(channels)
                && pollfds == old(pollfds)[c.index := PollState.PollFd(
                                             if events == 0 then -c.fd - 1 else old(pollfds[c.index].fd), events, 0)]
    {
      ghost var after := UpdateFacts(c, events);
      hide PollState.Inv, PollState.UpdateChannel, PollState.Asserted, PollAllows;
      c.events := events;
      if c.index < 0 {
        Add(c);
      } else {
        Change(c);
      }
      state := after;
    }

    /** A new channel: its entry goes at the end. */
    method Add(c: Channel)
      requires c.fd !in channels
      modifies this`pollfds, this`channels, c`index
      ensures pollfds == old(pollfds) + [PollState.PollFd(c.fd, c.events, 0)]
      ensures channels == old(channels)[c.fd := c] && c.index == |old(pollfds)|
    {
      pollfds := pollfds + [PollState.PollFd(c.fd, c.events, 0)];
      c.index := |pollfds| - 1;
      channels := channels[c.fd := c];
    }

    /** An existing channel: its entry takes the new mask, and is to be ignored if that is empty. */
    method Change(c: Channel)
      requires 0 <= c.index < |pollfds| && c.fd in channels && channels[c.fd] == c
      requires pollfds[c.index].fd == c.fd || pollfds[c.index].fd == -c.fd - 1
      modifies this`pollfds
      ensures var fd := if c.events == 0 then -c.fd - 1 else old(pollfds)[c.index].fd;
              pollfds == old(pollfds)[c.index := PollState.PollFd(fd, c.events, 0)]
    {
      var i := c.index;
      pollfds := pollfds[i := pollfds[i].(events := c.events, revents := 0)];
      if c.events == 0 {
        pollfds := pollfds[i := pollfds[i].(fd := -c.fd - 1)];
      }
    }

    /** The last entry replaces the one at `i`, and its channel learns of it. */
    method EraseEntry(i: nat, ghost moved: Channel)
      requires i < |pollfds|
      requires i < |pollfds| - 1 ==>
                 var fd := PollState.Decode(pollfds[|pollfds| - 1].fd); fd in channels && channels[fd] == moved
      modifies this`pollfds, moved`index
      ensures pollfds == old(pollfds[i := pollfds[|pollfds| - 1]][..|pollfds| - 1])
      ensures moved.index == if i < old(|pollfds|) - 1 then i else old(moved.index)
    {
      if i == |pollfds| - 1 {
        pollfds := pollfds[..|pollfds| - 1];
      } else {
        var channelAtEnd := pollfds[|pollfds| - 1].fd;
        pollfds := pollfds[i := pollfds[|pollfds| - 1]][|pollfds| - 1 := pollfds[i]];
        if channelAtEnd < 0 {
          channelAtEnd := -channelAtEnd - 1;
        }
        channels[channelAtEnd].index := i;
        pollfds := pollfds[..|pollfds| - 1];
      }
    }

    /** The channel leaves the map, and its entry the array. */
    method Unlink(c: Channel, ghost moved: Channel)
      requires c.fd in channels && channels[c.fd] == c
      requires 0 <= c.index < |pollfds| && pollfds[c.index].fd == -c.fd - 1 && pollfds[c.index].events == c.events
      requires c.index < |pollfds| - 1 ==>
                 var fd := PollState.Decode(pollfds[|pollfds| - 1].fd);
                 fd in channels - {c.fd} && channels[fd] == moved
      modifies this`pollfds, this`channels, moved`index
      ensures channels == old(channels) - {c.fd}
      ensures pollfds == old(pollfds[c.index := pollfds[|pollfds| - 1]][..|pollfds| - 1])
      ensures moved.index == if old(c.index) < old(|pollfds|) - 1 then old(c.index) else old(moved.index)
    {
      assert c.fd in channels && channels[c.fd] == c;
      var i := c.index;
      assert pollfds[i].fd == -c.fd - 1 && pollfds[i].events == c.events;
      channels := channels - {c.fd};
      EraseEntry(i, moved);
    }

    method Remove(c: Channel)
      requires Valid() && PollAllows(state.wishes, Channels.Remove(c))
      modifies this, state.wishes.Keys`index
      ensures PollState.Asserted(old(state), Channels.Remove(c))
      ensures state == PollState.RemoveChannel(old(state), c)
      ensures Valid() && channels == old(channels) - {c.fd}
    {
      ghost var after, moved := RemoveFacts(c);
      hide PollState.Inv, PollState.RemoveChannel, PollState.Asserted, PollAllows;
      Unlink(c, moved);
      state := after;
    }

    /** poll(2) filled in `revents` and counted the entries with something to report; zero or an error gives none. */
    method Poll(filled: seq<PollState.PollFd>, numEvents: int) returns (active: seq<Channel>)
      requires Valid() && PollState.KernelFilled(pollfds, filled)
      requires numEvents > 0 ==> numEvents == PollState.Reports(filled, 0)
      modifies this, state.wishes.Keys`revents
      ensures state == old(state).(pollfds := filled) && Valid()
      ensures numEvents > 0 ==> PollState.ActiveFrom(state, 0, active)
      ensures numEvents > 0 ==> forall c <- active :: c.revents == filled[c.index].revents
      ensures numEvents <= 0 ==> active == []
      ensures forall c <- state.wishes :: c !in active ==> c.revents == old(c.revents)
    {
      PollState.FilledInv(state, filled);
      pollfds := filled;
      state := state.(pollfds := filled);
      if numEvents > 0 {
        PollState.ActiveExactly(state, 0);
        active := FillActiveChannels(numEvents);
      } else {
        active := [];
      }
    }

    /** An entry that reports belongs to its descriptor's channel. */
    lemma EntryChannel(i: nat)
      requires Valid() && i < |pollfds| && pollfds[i].fd >= 0 && pollfds[i].fd in channels
      ensures var c := channels[pollfds[i].fd];
              c in state.wishes && c.fd == pollfds[i].fd && c.index == i
    {
      assert PollState.EntryOk(state, i) && PollState.MapOk(state, pollfds[i].fd);
      assert Agrees(channels[pollfds[i].fd]);
    }

    /** Stopping once `numEvents` entries are found misses none. */
    method FillActiveChannels(numEvents: nat) returns (active: seq<Channel>)
      requires Valid()
      requires PollState.ReportersKnown(pollfds, channels)
      requires numEvents == PollState.Reports(pollfds, 0)
      modifies state.wishes.Keys`revents
      ensures active == PollState.Active(pollfds, channels, 0)
      ensures Valid()
      ensures forall c <- active ::
                c in state.wishes && 0 <= c.index < |pollfds| && c.revents == pollfds[c.index].revents
      ensures forall c <- state.wishes :: c !in active ==> c.revents == old(c.revents)
    {
      hide PollState.Inv, PollState.Active;
      active := [];
      var left := numEvents;
      var i := 0;
      while i < |pollfds| && left > 0
        invariant 0 <= i <= |pollfds|
        invariant left == PollState.Reports(pollfds, i)
        invariant active + PollState.Active(pollfds, channels, i) == PollState.Active(pollfds, channels, 0)
        invariant Valid()
        invariant forall c <- active ::
                    c in state.wishes && 0 <= c.index < |pollfds| && c.revents == pollfds[c.index].revents
        invariant forall c <- state.wishes :: c !in active ==> c.revents == old(c.revents)
      {
        var pfd := pollfds[i];
        PollState.ActiveStep(pollfds, channels, i, active);
        if pfd.revents > 0 {
          left := left - 1;
          assert pfd.fd in channels;
          var channel := channels[pfd.fd];
          EntryChannel(i);
          assert channel.fd == pfd.fd;
          channel.revents := pfd.revents;
          active := active + [channel];
        }
        i := i + 1;
      }
      PollState.NoReportsNoneActive(pollfds, channels, i);
    }
  }
}
