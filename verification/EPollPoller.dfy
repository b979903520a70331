/** The epoll(4) poller itself. `kernel` stands for the interest set behind its descriptor. */
module EPollPollers {
  import opened Channels
  import EPollState

  /** One `epoll_event` as epoll_wait returns it: the mask, and the channel given at registration. */
  datatype Report = Report(events: Events, channel: Channel)

  const INIT_EVENT_LIST_SIZE := 16

  class EPollPoller {
    var channels: map<int, Channel>
    var kernel: map<int, EPollState.Interest>
    var failed: bool
    var eventListSize: nat
    ghost var state: EPollState.State

    /** The poller's, the kernel's and the channels' own fields are those of `state`. */
    ghost predicate Valid()
      reads this, state.wishes.Keys`index, state.wishes.Keys`events
    {
      && EPollState.Inv(state)
      && channels == state.channels && kernel == state.kernel && failed == state.failed
      && forall c <- state.wishes :: Agrees(c)
    }

    ghost predicate Agrees(c: Channel)
      reads this, c`index, c`events
    {
      && c in state.index && c in state.wishes
      && c.index == state.index[c]
      && c.fd == state.wishes[c].fd && c.events == state.wishes[c].events
    }

    /** A poller for channels to come, not yet registered. */
    constructor (ghost all: set<Channel>)
      requires forall c <- all :: c.fd >= 0 && c.events == 0 && c.index == -1
      ensures Valid() && state == EPollState.Init(map c <- all :: Wish(c.fd, 0, Fresh))
      ensures eventListSize == 16
    {
      channels, kernel, failed := map[], map[], false;
      eventListSize := INIT_EVENT_LIST_SIZE;
      state := EPollState.Init(map c <- all :: Wish(c.fd, 0, Fresh));
      new;
      EPollState.InitInv(state.wishes);
    }

    /** epoll_ctl with the channel's descriptor and mask. */
    method Ctl(op: EPollState.Op, c: Channel)
      modifies this`kernel, this`failed
      ensures kernel == EPollState.Ctl(old(kernel), op, c.fd, EPollState.Interest(c.events, c))
      ensures failed == (old(failed) || !EPollState.CtlValid(old(kernel), op, c.fd))
      ensures failed == (old(failed) || (if op.Add? then c.fd in old(kernel) else c.fd !in old(kernel)))
      ensures kernel == if op.Del? then old(kernel) - {c.fd}
                        else if op.Add? == (c.fd in old(kernel)) then old(kernel)
                        else old(kernel)[c.fd := EPollState.Interest(c.events, c)]
    {
      match op
      case Add =>
        if c.fd in kernel {
          failed := true;
        } else {
          kernel := kernel[c.fd := EPollState.Interest(c.events, c)];
        }
      case Mod =>
        if c.fd in kernel {
          kernel := kernel[c.fd := EPollState.Interest(c.events, c)];
        } else {
          failed := true;
        }
      case Del =>
        if c.fd in kernel {
          kernel := kernel - {c.fd};
        } else {
          failed := true;
        }
    }

    /** What the operations rely on: the source's assertions, and what they reach. */
    lemma StepFacts(step: Step)
      requires Valid() && EPollAllows(state.wishes, step)
      ensures EPollState.Asserted(state, step) && Agrees(step.channel)
      ensures EPollState.Inv(EPollState.Apply(state, step))
    {
      EPollState.AssertedIffAllowed(state, step);
      EPollState.StepInv(state, step);
      assert Agrees(step.channel);
    }

    lemma UpdateFacts(c: Channel, events: Events) returns (after: EPollState.State)
      requires Valid() && EPollAllows(state.wishes, Channels.Update(c, events))
      ensures EPollState.Asserted(state, Channels.Update(c, events)) && Agrees(c)
      ensures after == EPollState.UpdateChannel(state, c, events) && EPollState.Inv(after)
      ensures c.index == EPollState.K_NEW || c.index == EPollState.K_DELETED || c.index == EPollState.K_ADDED
      ensures if c.index == EPollState.K_NEW then c.fd !in channels && after.channels == channels[c.fd := c]
              else c.fd in channels && channels[c.fd] == c && after.channels == channels
      ensures var op := if c.index != EPollState.K_ADDED then EPollState.Add
                        else if events == 0 then EPollState.Del else EPollState.Mod;
              && EPollState.CtlValid(kernel, op, c.fd) && !failed && !after.failed
              && after.kernel == EPollState.Ctl(kernel, op, c.fd, EPollState.Interest(events, c))
              && after.index == state.index[c := if op.Del? then EPollState.K_DELETED else EPollState.K_ADDED]
      ensures c in after.wishes && after.wishes == state.wishes[c := Wish(c.fd, events, after.wishes[c].life)]
    {
      StepFacts(Channels.Update(c, events));
      after := EPollState.UpdateChannel(state, c, events);
      assert !after.failed && !state.failed;
      hide EPollState.Inv, EPollAllows, EPollState.Ctl, EPollState.CtlValid;
      assert c.index != EPollState.K_NEW ==> channels == channels[c.fd := c];
    }

    /** `Channel::update` after the mask changed. */
    method Update(c: Channel, events: Events)
      requires Valid() && EPollAllows(state.wishes, Channels.Update(c, events))
      modifies this`channels, this`kernel, this`failed, this`state, c`events, c`index
      ensures EPollState.Asserted(old(state), Channels.Update(c, events))
      ensures state == EPollState.UpdateChannel(old(state), c, events)
      ensures Valid() && !failed && c.events == events
      ensures channels == old(channels)[c.fd := c]
      ensures if old(c.index) == 1 && events == 0 then
                kernel == old(kernel) - {c.fd} && c.index == 2
              else
                kernel == old(kernel)[c.fd := EPollState.Interest(events, c)] && c.index == 1
    {
      ghost var after := UpdateFacts(c, events);
      hide EPollState.Inv, EPollState.UpdateChannel, EPollState.Asserted, EPollAllows,
           EPollState.Ctl, EPollState.CtlValid;
      c.events := events;
      if c.index == EPollState.K_NEW || c.index == EPollState.K_DELETED {
        Add(c);
      } else {
        Change(c);
      }
      state := after;
    }

    /** A channel the kernel does not hold: it is registered with EPOLL_CTL_ADD. */
    method Add(c: Channel)
      requires c.index == EPollState.K_NEW || c.index == EPollState.K_DELETED
      requires if c.index == EPollState.K_NEW then c.fd !in channels else c.fd in channels && channels[c.fd] == c
      modifies this`channels, this`kernel, this`failed, c`index
      ensures channels == if old(c.index) == EPollState.K_NEW then old(channels)[c.fd := c] else old(channels)
      ensures kernel == EPollState.Ctl(old(kernel), EPollState.Add, c.fd, EPollState.Interest(c.events, c))
      ensures failed == (old(failed) || !EPollState.CtlValid(old(kernel), EPollState.Add, c.fd))
      ensures c.index == EPollState.K_ADDED
    {
      if c.index == EPollState.K_NEW {
        assert c.fd !in channels;
        channels := channels[c.fd := c];
      } else {
        assert c.fd in channels && channels[c.fd] == c;
      }
      c.index := EPollState.K_ADDED;
      Ctl(EPollState.Add, c);
    }

    /** A channel the kernel holds: its mask is replaced, or it is taken out when it wants nothing. */
    method Change(c: Channel)
      requires c.fd in channels && channels[c.fd] == c && c.index == EPollState.K_ADDED
      modifies this`kernel, this`failed, c`index
      ensures var op := if c.events == 0 then EPollState.Del else EPollState.Mod;
              && kernel == EPollState.Ctl(old(kernel), op, c.fd, EPollState.Interest(c.events, c))
              && failed == (old(failed) || !EPollState.CtlValid(old(kernel), op, c.fd))
      ensures c.index == if c.events == 0 then EPollState.K_DELETED else EPollState.K_ADDED
    {
      if c.events == 0 {
        Ctl(EPollState.Del, c);
        c.index := EPollState.K_DELETED;
      } else {
        Ctl(EPollState.Mod, c);
      }
    }

    method Remove(c: Channel)
      requires Valid() && EPollAllows(state.wishes, Channels.Remove(c))
      modifies this`channels, this`kernel, this`failed, this`state, c`index
      ensures EPollState.Asserted(old(state), Channels.Remove(c))
      ensures state == EPollState.RemoveChannel(old(state), c)
      ensures Valid() && !failed
      ensures channels == old(channels) - {c.fd} && kernel == old(kernel) - {c.fd} && c.index == -1
    {
      StepFacts(Channels.Remove(c));
      ghost var after := EPollState.RemoveChannel(state, c);
      assert !after.failed;
      hide EPollState.Inv, EPollAllows, EPollState.Ctl, EPollState.CtlValid;
      assert c.fd in channels && channels[c.fd] == c;
      assert c.events == 0;
      assert c.index == EPollState.K_ADDED || c.index == EPollState.K_DELETED;
      channels := channels - {c.fd};
      if c.index == EPollState.K_ADDED {
        Ctl(EPollState.Del, c);
      }
      c.index := EPollState.K_NEW;
      state := after;
    }

    /** epoll_wait reports members of the interest set, no more than the list holds. */
    ghost predicate KernelReported(reports: seq<Report>)
      reads this
    {
      && |reports| <= eventListSize
      && (forall i :: 0 <= i < |reports| ==> FromKernel(reports[i].channel))
      && (forall i, j :: 0 <= i < j < |reports| ==> reports[i].channel != reports[j].channel)
    }

    ghost predicate FromKernel(c: Channel)
      reads this
    {
      c.fd in kernel && kernel[c.fd].channel == c
    }

    /** What the kernel returns, in its order; a full list is doubled for the next time. */
    method Poll(reports: seq<Report>) returns (active: seq<Channel>)
      requires Valid() && KernelReported(reports)
      modifies this`eventListSize, state.wishes.Keys`revents
      ensures |active| == |reports|
      ensures forall i :: 0 <= i < |active| ==>
                            active[i] == reports[i].channel && active[i].revents == reports[i].events
      ensures forall c <- active ::
                c in state.wishes && state.wishes[c].life.Registered? && c.index == EPollState.K_ADDED
      ensures forall c <- state.wishes :: c !in active ==> c.revents == old(c.revents)
      ensures Valid()
      ensures eventListSize == if 0 < |reports| == old(eventListSize) then 2 * |reports| else old(eventListSize)
    {
      active := [];
      if |reports| > 0 {
        active := FillActiveChannels(reports);
        if |reports| == eventListSize {
          eventListSize := eventListSize * 2;
        }
      }
    }

    /** The channel the kernel hands back is registered and known by its descriptor. */
    lemma ReportedChannel(c: Channel)
      requires Valid() && FromKernel(c)
      ensures c.fd in channels && channels[c.fd] == c
      ensures c in state.wishes && state.wishes[c].life.Registered? && c.index == EPollState.K_ADDED
    {
      EPollState.KernelExactly(state, c, c.fd, kernel[c.fd].events);
      assert Agrees(c);
      assert EPollState.ChannelOk(state, c);
    }

    method FillActiveChannels(reports: seq<Report>) returns (active: seq<Channel>)
      requires Valid() && KernelReported(reports)
      modifies state.wishes.Keys`revents
      ensures |active| == |reports|
      ensures forall i :: 0 <= i < |active| ==>
                            active[i] == reports[i].channel && active[i].revents == reports[i].events
      ensures forall c <- active ::
                c in state.wishes && state.wishes[c].life.Registered? && c.index == EPollState.K_ADDED
      ensures forall c <- state.wishes :: c !in active ==> c.revents == old(c.revents)
      ensures Valid()
    {
      hide EPollState.Inv;
      active := [];
      for i := 0 to |reports|
        invariant |active| == i
        invariant Valid()
        invariant forall k :: 0 <= k < i ==> active[k] == reports[k].channel && active[k].revents == reports[k].events
        invariant forall c <- active ::
                    c in state.wishes && state.wishes[c].life.Registered? && c.index == EPollState.K_ADDED
        invariant forall c <- state.wishes :: c !in active ==> c.revents == old(c.revents)
      {
        var channel := reports[i].channel;
        assert FromKernel(channel);
        ReportedChannel(channel);
        assert channel.fd in channels && channels[channel.fd] == channel;
        channel.revents := reports[i].events;
        active := active + [channel];
      }
    }
  }
}
