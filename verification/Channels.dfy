/**
 A channel ties a file descriptor to the events its owner wants; a poller keeps its own number in it.
 What the owner wants of a poller is a machine of its own, which both pollers have to follow.
 */
module Channels {

  /** A mask of poll(2) events, which fits the `short` of a `pollfd`. */
  type Events = e: int | 0 <= e < 0x8000

  class Channel {
    const fd: int
    var events: Events
    var revents: int
    var index: int

    constructor (fd: int)
      ensures this.fd == fd && events == 0 && revents == 0 && index == -1
    {
      this.fd := fd;
      events, revents, index := 0, 0, -1;
    }
  }

  /** `disabled`: since it was registered, it was updated again with no events at least once. */
  datatype Life = Fresh | Registered(disabled: bool) | Removed

  datatype Wish = Wish(fd: int, events: Events, life: Life)

  /** What the owners of these channels want. */
  type Wishes = map<Channel, Wish>

  /** An owner asks for these events from now on, or to be forgotten. */
  datatype Step = Update(channel: Channel, events: Events) | Remove(channel: Channel)

  function ApplyWish(w: Wishes, step: Step): Wishes
    requires step.channel in w
  {
    var was := w[step.channel];
    match step
    case Update(c, events) =>
      var life := if was.life.Registered? then Registered(was.life.disabled || events == 0) else Registered(false);
      w[c := Wish(was.fd, events, life)]
    case Remove(c) => w[c := was.(life := Removed)]
  }

  /** Channels as constructed, over open descriptors. */
  predicate AllFresh(w: Wishes) {
    forall c <- w :: w[c].fd >= 0 && w[c].events == 0 && w[c].life == Fresh
  }

  /** No other registered channel has this one's descriptor. */
  predicate DescriptorFree(w: Wishes, c: Channel)
    requires c in w
  {
    forall d <- w :: d != c && w[d].life.Registered? ==> w[d].fd != w[c].fd
  }

  /** What epoll needs of the owners: descriptors are not shared, and only idle channels are removed. */
  predicate EPollAllows(w: Wishes, step: Step) {
    && step.channel in w
    && match step
       case Update(c, _) => w[c].life.Registered? || DescriptorFree(w, c)
       case Remove(c) => w[c].life.Registered? && w[c].events == 0
  }

  /**
   What poll needs beyond that: a removed channel is not used again, and a channel was disabled after
   its registration before it is removed.
   */
  predicate PollAllows(w: Wishes, step: Step) {
    && step.channel in w
    && match step
       case Update(c, _) => !w[c].life.Removed? && (w[c].life.Fresh? ==> DescriptorFree(w, c))
       case Remove(c) => w[c].life == Registered(true) && w[c].events == 0
  }

  function ApplyWishes(w: Wishes, steps: seq<Step>): Wishes
    requires forall step <- steps :: step.channel in w
    decreases |steps|
  {
    if steps == [] then w else ApplyWishes(ApplyWish(w, steps[0]), steps[1..])
  }

  predicate PollAllowsAll(w: Wishes, steps: seq<Step>)
    decreases |steps|
  {
    steps == [] || (PollAllows(w, steps[0]) && PollAllowsAll(ApplyWish(w, steps[0]), steps[1..]))
  }

  predicate EPollAllowsAll(w: Wishes, steps: seq<Step>)
    decreases |steps|
  {
    steps == [] || (EPollAllows(w, steps[0]) && EPollAllowsAll(ApplyWish(w, steps[0]), steps[1..]))
  }

  /** What poll allows, epoll does. */
  lemma {:induction false} PollIsStricter(w: Wishes, steps: seq<Step>)
    requires PollAllowsAll(w, steps)
    ensures EPollAllowsAll(w, steps)
    decreases |steps|
  {
    if steps != [] {
      PollIsStricter(ApplyWish(w, steps[0]), steps[1..]);
    }
  }
}
