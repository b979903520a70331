/** What epoll makes of a connection's channel: the two machines side by side. */
module TcpWatch {
  import Channels
  import EPollState
  import TcpState

  /** `WatchedAfter` is what `EPollPoller` does with any channel whose update passes its assertions. */
  lemma UpdateWatches(s: EPollState.State, c: Channels.Channel, events: Channels.Events)
    requires EPollState.Inv(s) && EPollState.Asserted(s, Channels.Update(c, events))
    ensures var s' := EPollState.UpdateChannel(s, c, events);
            s'.index[c] == EPollState.K_ADDED
            <==> TcpState.WatchedAfter(s.index[c] == EPollState.K_ADDED, events > 0)
    ensures var s' := EPollState.UpdateChannel(s, c, events);
            (s'.index[c] == EPollState.K_ADDED
             <==> s'.wishes[c].fd in s'.kernel && s'.kernel[s'.wishes[c].fd].channel == c)
  {
    EPollState.StepInv(s, Channels.Update(c, events));
    var s' := EPollState.UpdateChannel(s, c, events);
    assert EPollState.ChannelOk(s', c);
  }

  /** And after its removal epoll does not hold it. */
  lemma RemovalUnwatches(s: EPollState.State, c: Channels.Channel)
    requires EPollState.Inv(s) && EPollState.Asserted(s, Channels.Remove(c))
    ensures var s' := EPollState.RemoveChannel(s, c);
            s'.index[c] != EPollState.K_ADDED && s'.wishes[c].fd !in s'.kernel
  {
    EPollState.StepInv(s, Channels.Remove(c));
  }
}
