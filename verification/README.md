# A verified model of the muduo reactor

The repository is a ZooKeeper client built on a bundled copy of the muduo network library. This
project models the logic of that library and proves what it keeps over whole runs.

Each component that other threads, the kernel or re-entrant callbacks can interleave with is a *state
machine*: a `State`, a type of `Step`s, `Apply`, and `Run` over any sequence of steps. Whatever the
environment decides (how many bytes a write takes, which sleeper a signal wakes, when the clock moves,
what a callback does) is a parameter of a step, so a lemma about `Run(Init(..), steps)` for every `steps`
is a statement about every interleaving. Beside it stands the *class* with the source's own fields and
methods; the postcondition of each method names the step or the run of steps it performs, so the lemmas
about runs hold of the class, and says of its own fields what becomes of them. A step that is not enabled
leaves the state alone. The source's assertions are assertions in the methods, or conditions proved to
hold in every reachable state.

| files | component |
|---|---|
| `CInt`, `Options`, `Date`, `TimeZone` | C++ division; a value or none; Julian days; UTC and local time |
| `TimerState`, `TimerRuns`, `TimerRequests`, `TimerQueue` | the timer queue: two indexes, deferred cancellation, one-shot alarm |
| `MonitorQueue`, `BoundedBlockingQueue`, `ThreadPoolState`, `ThreadPool` | one mutex, two condition variables, a bounded queue; the life of a pool's threads |
| `EventLoopState`, `EventLoop` | the functor queue and the wakeup of the poll |
| `LogStream` | integer printing into a fixed buffer |
| `Buffer`, `TcpState`, `TcpRuns`, `TcpMessages`, `TcpWatch`, `TcpConnection` | the byte buffer; the output side of a connection |
| `AsyncState`, `AsyncLogging` | the double-buffered logger |
| `Channels`, `PollState`, `PollPoller`, `EPollState`, `EPollPoller` | the two pollers, and what they agree on |

## What turned out false, and exactly when it holds

* **Cancelling a timer is final** except for one kind of id: a timer constructed by another thread that
  has not reached the loop yet (`TimerRuns.CancelIsFinal`, an equivalence). Its `cancel` finds nothing.
* **Local time round trip.** For zones whose transitions lie far enough apart, converting to local time
  and back is the identity on *every* instant exactly when each transition that sets clocks back ends
  daylight saving time by 3600 seconds (`TimeZones.LocalRoundTrip`); `LocalRoundTripAt` says which
  instants are lost otherwise, `HalfHourDstFails` names one.
* **The Julian day formula** needs a shifted year that is not negative: of a valid date the round trip holds
  exactly from 1 March -4800 on (`Dates.DateRoundTripIff`). The weekday is one of 0..6 only from day number
  -1 on, or on a Sunday (`Dates.WeekDayCycles`), since the C++ remainder is negative below.
* **`shutdown` and `forceClose` from another thread** test `state_` and set it without a lock. What a
  connection promises holds at every moment of a run exactly when no close falls between the two
  (`TcpRuns.AsPromisedIff`); the writing mode alone, exactly when no such close left bytes unsent
  (`WritesIff`). Then a half-close over unsent bytes can follow (`OvertakenShutdown`), and a second close
  (`OvertakenForceClose`, `ClosesCounted`). The stream itself is preserved in every run.
* **Half-close at most once**: a half-close is the last one exactly when no `shutdown` is under way, between
  its test and the end of its functor (`TcpRuns.HalfCloseIsFinal`, `HalfClosesCounted`; `TwiceWitness`).
* **`connectDestroyed`** finds a channel without events, in a run in which no call was overtaken by a close,
  exactly when the connection is not disconnecting (`TcpRuns.DestroyNeedsNoEvents`).
* **The assertion of `handleClose`** can fail on a hang-up exactly after it ran for a channel that epoll did
  not watch: disabling such a channel adds it, with an empty mask (`TcpRuns.CloseAssertsIff`, `TcpWatch`).
  That takes a `forceClose` overtaken by a close (`UnwatchedOnlyOvertaken`, `OvertakenForceClose`).
* **Stopping the logger** loses what was appended after the last swap: whatever is in the buffers when
  `stop` is called gets into the file exactly when the backend is waiting at that moment
  (`AsyncState.StopIsComplete`; `StopLosesLine`).
* **The thread pool** gets another functor in, in some continuation of any run, exactly unless its queue is
  full, no worker is past its test of `running_` and on its way to take, and the pool is stopped or every
  worker left is itself inside `run` (`ThreadPoolState.QueuesIff`). `stop` reaches such a state with a
  producer asleep, as it notifies takers only (`StopStrandsProducer`); a functor that calls `run` on its
  own pool reaches it without `stop` (`FunctorWaitsForItself`).
* **A bounded queue of capacity 0** deadlocks; no other does (`MonitorQueue.DeadlockFree`).
* **A functor queued by the loop thread outside `loop()`** is left waiting by some poll exactly when no other
  thread has written a wakeup or is about to (`EventLoopState.QueueBeforeLoop`); no other functor ever is.
* **`quit`** makes the next test of the loop condition leave the loop exactly when `loop()` is already
  running (`EventLoopState.QuitTakesEffect`); before that it is forgotten.
* **The poll(2) poller** stops polling a channel once it was disabled, for good; fails its assertion
  when a channel is removed that was never disabled by a second update; and fails on any use of a removed
  channel, whose index is not reset. `PollState.AssertedIffAllowed` and `PolledIffNeverDisabled` are the
  exact conditions, `Pollers.SameInterestIff` says when it agrees with the epoll(4) poller.

## Assumptions

A mutex makes its region atomic, and a call by another thread that takes none is a step for each access to
what it shares with the loop; a condition variable may wake at any time; a signal wakes a sleeper if
there is one. A write takes at most what it is offered and fails with EPIPE after a half-close. poll(2)
ignores negative descriptors; epoll_ctl refuses to add what is there and to change what is not. The
clock is positive and does not run backwards. Allocation returns an address not in use. The descriptors
of channels are open and not negative.

## Model

| member | source | states |
|---|---|---|
| Dates.NextDay | muduo/base/Date.h:17-22 | The calendar's own next day (month lengths, the 4/100/400 leap rule) is a valid date and comes after the day. |
| Dates.NextDayNumber | muduo/base/Date.cc:20-27 | On every valid Gregorian date of shifted year >= 0 the next calendar day has the next day number. |
| Dates.DateRoundTrip | muduo/base/Date.cc:20-42 | `getYearMonthDay` inverts `getJulianDayNumber` on every such date. |
| Dates.DayNumberRoundTrip | muduo/base/Date.cc:29-42 | `getJulianDayNumber` inverts `getYearMonthDay`, which gives a valid date, on every day number >= -32044. |
| Dates.DayHasDate | muduo/base/Date.cc:20-27 | Every day number from -32044 on is that of a valid date: the formula is onto. |
| Dates.FromParts | muduo/base/Date.cc:29-42 | The inverse recovers century, year of the century, month and day one after another, at the leap-day edges too. |
| Dates.DayNumberOrder | muduo/base/Date.h:107-110 | Comparing day numbers is comparing dates in calendar order, both ways. |
| Dates.DateRoundTripIff | muduo/base/Date.cc:20-42 | Of any valid date, the round trip holds if and only if the shifted year is not negative. |
| Dates.BeforeEraNoDay | muduo/base/Date.cc:29-42 | Below day number -32044 `getYearMonthDay` yields a day that is not positive. |
| Dates.DayNumberRepeatsBeforeEra | muduo/base/Date.cc:20-27 | 29 February and 1 March -4800 share a day number. |
| Dates.DayOfYearByNumbers | muduo/base/TimeZone.cc:337-341 | The difference to 1 January is the count of days month by month, from 0 to 365. |
| Dates.WeekDayCycles | muduo/base/Date.h:95-99 | Consecutive days cycle the weekday; it is in 0..6 exactly from day number -1 on, or on a Sunday. |
| Dates.EpochDay | muduo/base/Date.cc:44-44 | The epoch constant is the day number of 1 January 1970, a Thursday. |
| Dates.NoOverflow | muduo/base/Date.cc:29-42 | 4a + 3 fits an int exactly up to the last day number, and then no intermediate result overflows. |
| TimeZones.FillHMS | muduo/base/TimeZone.cc:71-77 | Hours, minutes and seconds in range that add up to the given seconds; other fields unchanged. |
| TimeZones.ToUtcTime | muduo/base/TimeZone.cc:317-343 | The truncating division and its correction for negative times give the floor of the day; the broken-down time is that of the specification. |
| TimeZones.UtcRoundTrip | muduo/base/TimeZone.cc:317-358 | `fromUtcTime(toUtcTime(t)) == t` for every second of the era, negative ones included. |
| TimeZones.UtcFieldsRoundTrip | muduo/base/TimeZone.cc:317-358 | Any valid date and time of day comes back from the opposite trip. |
| TimeZones.UtcFieldsInRange | muduo/base/TimeZone.cc:317-343 | Every broken-down field is in range; the day of the year is the calendar's; when the weekday is in range. |
| TimeZones.UtcTomorrow | muduo/base/TimeZone.cc:330-335 | A day later it is the calendar's next day, the next weekday and the same time. |
| TimeZones.LowerBound | muduo/base/TimeZone.cc:229-232 | The binary search splits the transitions at the sentry, under either ordering. |
| TimeZones.FindLocaltime | muduo/base/TimeZone.cc:218-250 | The local time type of the last transition at or before the sentry, or the first type of the zone, under either ordering. |
| TimeZones.LookupUnique | muduo/base/TimeZone.cc:218-250 | "Last transition at or before" determines the answer. |
| TimeZones.ToLocalTime | muduo/base/TimeZone.cc:272-292 | The UTC fields of the shifted instant, with the flag and offset in force. |
| TimeZones.FromLocalTime | muduo/base/TimeZone.cc:294-315 | The method computes the specified instant, the DST hack included; what that instant is, the next rows say. |
| TimeZones.FromLocalAnyFlag | muduo/base/TimeZone.cc:294-315 | For any instant and any `tm` with its local clock, whatever the flag: the instant, or when the clock comes again if it does, and an hour before exactly when the flag claims DST where there is none. |
| TimeZones.FromSkippedLocal | muduo/base/TimeZone.cc:294-315 | A local time that the clocks skip is taken by the offset before the gap, whatever the flag, unless the gap is whole days, give or take a minute, or reaches the next transition. |
| TimeZones.LocalTmFields | muduo/base/TimeZone.cc:272-292 | Local time has the clock of the instant shifted by the offset of the last transition at or before it, its flag and its offset. |
| TimeZones.LookupByLocal | muduo/base/TimeZone.cc:218-250 | The lookup by local time finds the transition in force, or the next one exactly inside its repeated interval. |
| TimeZones.LookupAfterDrop | muduo/base/TimeZone.cc:303-313 | The hack's second lookup lands after the transition that set the clocks back. |
| TimeZones.LocalSorted | muduo/base/TimeZone.cc:301-302 | Separated transitions are in order by local time too, as the second search needs. |
| TimeZones.LocalRoundTripAt | muduo/base/TimeZone.cc:272-315 | At each instant the round trip holds if and only if, should its local time come again after the next transition, that transition ends DST by one hour. |
| TimeZones.LocalRoundTrip | muduo/base/TimeZone.cc:272-315 | The round trip holds at all instants if and only if every transition that sets clocks back ends DST by one hour. |
| TimeZones.HalfHourDstFails | muduo/base/TimeZone.cc:303-313 | An instant a half-hour DST zone does not get back. |
| TimerEntries.Insert | muduo/net/TimerQueue.cc:263-267 | An ordered set gains one entry, first exactly when it is less than the old first. |
| TimerEntries.Erase | muduo/net/TimerQueue.cc:165-166 | An ordered set loses that entry and no other. |
| TimerEntries.LowerBound | muduo/net/TimerQueue.cc:202-203 | The first entry not less than the sentry. |
| TimerState.HowMuchTimeFromNow | muduo/net/TimerQueue.cc:42-56 | Whole seconds and nanoseconds in range that make up the delay, at least 100 microseconds. |
| TimerState.Arm | muduo/net/TimerQueue.cc:69-82 | The alarm's deadline is the later of the expiration and 100 microseconds from now. |
| TimerRuns.StepInv | muduo/net/TimerQueue.cc:146-276 | Every step keeps the whole invariant: ordered indexes keyed by live timers, `activeTimers_` the other view of `timers_`, each live timer pending, queued or in the batch and only one of these, sequences unique, each number live or freed once, the alarm in time. |
| TimerRuns.RunInv | muduo/net/TimerQueue.cc:146-276 | So does every run, callbacks re-entering add and cancel included. |
| TimerRuns.SameSize | muduo/net/TimerQueue.cc:160-174 | The assertion that both indexes have the same size, in every state. |
| TimerRuns.NoLostExpiry | muduo/net/TimerQueue.cc:146-155 | In every run, outside `handleRead` and with a timer queued, the timerfd has fired unread or is armed for no later than the earliest expiration or 100 microseconds after arming. |
| TimerRuns.DueAlarmFires | muduo/net/TimerQueue.cc:42-82 | So once the earliest timer is due, and 100 microseconds after arming, the alarm can go off. |
| TimerRuns.BatchIsExpired | muduo/net/TimerQueue.cc:198-218 | The batch is exactly the timers with expiration <= now, in key order; the rest stay queued. |
| TimerRuns.BatchRunsOnce | muduo/net/TimerQueue.cc:187-192 | At the end of the callbacks the history holds each timer of the batch once, in key order, whatever the callbacks did. |
| TimerRuns.ConstructGenuine | muduo/net/TimerQueue.cc:118-126 | The id `addTimer` returns names its timer. |
| TimerRuns.StepGenuine | muduo/net/Timer.h:30-36 | It names no other timer ever after, even when the address is used again. |
| TimerRuns.CancelTouchesOnlyItsTimer | muduo/net/TimerQueue.cc:157-175 | Cancelling, with a stale id whose address is in use again as well, changes neither life, place nor cancellation of any other timer. |
| TimerRuns.GoneNeverRuns | muduo/net/TimerQueue.cc:177-250 | A freed timer runs in no later step of any run. |
| TimerRuns.CancelMarks | muduo/net/TimerQueue.cc:157-175 | Cancelling frees a queued timer, and marks one of the batch, itself included, for deletion. |
| TimerRuns.CancelledRuns | muduo/net/TimerQueue.cc:157-250 | A cancelled timer runs in no batch but the one already being called. |
| TimerRuns.CancelIsFinal | muduo/net/TimerQueue.cc:118-175 | For every id ever returned: cancelling is final in all later runs, or in those alone in which `handleRead` waits for the alarm, if and only if the timer is not still on its way to the loop. |
| TimerRuns.RunDespiteCancel | muduo/net/TimerQueue.cc:157-175 | A run that calls a timer cancelled before it was inserted, after its alarm has gone off. |
| TimerRuns.ReachRun | muduo/net/TimerQueue.cc:177-250 | From any reachable state a queued timer can still be run by the next batch, which the alarm starts. |
| TimerRequests.TimersAsAsked | muduo/net/TimerQueue.cc:118-276 | In every run each live timer has the interval and the flag asked for under its number, and until it is first restarted the expiration asked for. |
| TimerRequests.JoinsBatchIff | muduo/net/TimerQueue.cc:177-218 | In every run a queued timer not restarted yet is in the batch that begins if and only if the time asked for has come. |
| TimerQueues.ResetDisposesAll | muduo/net/TimerQueue.cc:220-239 | `reset` requeues every repeating, not cancelled timer of the batch one interval after now, frees every other one, and leaves waiting timers alone. |
| TimerQueues.TimerQueue.constructor | muduo/net/TimerQueue.cc:92-103 | The queue starts empty, idle and disarmed. |
| TimerQueues.TimerQueue.NewTimer | muduo/net/Timer.h:30-36 | At an unused address exactly the timer asked for, under a fresh sequence number; the id is genuine. |
| TimerQueues.TimerQueue.AddTimer | muduo/net/TimerQueue.cc:118-126 | Called in the loop: exactly the timer asked for, in both indexes at once. |
| TimerQueues.TimerQueue.AddTimerInLoop | muduo/net/TimerQueue.cc:146-155 | Performs the insertion step; the alarm moves exactly when the timer comes first. |
| TimerQueues.TimerQueue.Insert | muduo/net/TimerQueue.cc:252-276 | Both indexes gain the timer, sizes equal; tells whether it comes first. |
| TimerQueues.TimerQueue.ResetTimerfd | muduo/net/TimerQueue.cc:69-82 | The timerfd will fire at the expiration, or 100 microseconds from now if that is later: in time for a timer due then. |
| TimerQueues.TimerQueue.CancelInLoop | muduo/net/TimerQueue.cc:157-175 | Performs the cancel step; all its assertions hold. |
| TimerQueues.TimerQueue.GetExpired | muduo/net/TimerQueue.cc:198-218 | Takes the specified batch out of both indexes; all its assertions hold. |
| TimerQueues.TimerQueue.ResetTimer | muduo/net/TimerQueue.cc:224-239 | One turn of the `reset` loop. |
| TimerQueues.TimerQueue.Reset | muduo/net/TimerQueue.cc:220-250 | The reset steps of the whole batch, then the alarm for the new earliest timer. |
| TimerQueues.TimerQueue.RunCallback | muduo/net/TimerQueue.cc:188-192 | A callback, with any adds and cancels it makes, is the run of those steps. |
| TimerQueues.TimerQueue.HandleRead | muduo/net/TimerQueue.cc:177-196 | For every script of re-entrant callbacks, the whole handler is the run of its steps and ends valid. |
| MonitorQueue.StepInv | muduo/base/BoundedBlockingQueue.h:31-55 | Every put, take, sleep, spurious wakeup and stop keeps: sleeping takers beside items are matched by woken takers, sleeping putters beside room by woken putters. |
| MonitorQueue.FirstInFirstOut | muduo/base/BoundedBlockingQueue.h:31-55 | In every run items leave in the order they came, none lost or repeated, and the size never exceeds the bound. |
| MonitorQueue.NoLostWakeup | muduo/base/BoundedBlockingQueue.h:31-55 | In every run sleeping takers imply size <= woken takers, sleeping putters imply free slots <= woken putters. |
| MonitorQueue.DeadlockFree | muduo/base/BoundedBlockingQueue.h:23-55 | No run reaches sleepers on both sides with nobody awake if and only if the capacity is not 0. |
| BoundedBlockingQueues.BoundedBlockingQueue.Put | muduo/base/BoundedBlockingQueue.h:31-41 | Puts behind the others and wakes one taker, or sleeps exactly when full; the sleepers and the woken on both sides. |
| BoundedBlockingQueues.BoundedBlockingQueue.Take | muduo/base/BoundedBlockingQueue.h:43-55 | Takes the first item and wakes one producer, or sleeps exactly when empty; the sleepers and the woken on both sides. |
| ThreadPoolState.PoolStepInv | muduo/base/ThreadPool.cc:65-148 | Every step of producers, functors and workers keeps order and wakeup counts. |
| ThreadPoolState.PoolKeepsOrderAndWakeups | muduo/base/ThreadPool.cc:65-148 | In every run of the pool, functors that call `run` included, functors start in the order given and no sleeper is forgotten beside work or room. |
| ThreadPoolState.QueuesIff | muduo/base/ThreadPool.cc:53-148 | In every run of the pool: some continuation gets another functor in if and only if the queue has room, or a worker is past its test of `running_`, or the pool runs and some worker is not inside `run`. |
| ThreadPoolState.GetsIn | muduo/base/ThreadPool.cc:65-148 | It does so without a spurious wakeup: a worker awake in `take`, or there after its next test, makes room; a newcomer puts. |
| ThreadPoolState.StuckForGood | muduo/base/ThreadPool.cc:53-148 | Otherwise nothing is put or taken in any continuation. |
| ThreadPoolState.StopStrandsProducer | muduo/base/ThreadPool.cc:53-63 | A run to a stopped pool, its worker still inside a functor, in which a producer is asleep for good. |
| ThreadPoolState.FunctorWaitsForItself | muduo/base/ThreadPool.cc:65-83 | A run to a running pool whose only worker is asleep for good in the `run` its functor called. |
| ThreadPools.ThreadPool.RunTask | muduo/base/ThreadPool.cc:65-83 | Puts the given functor last in the queue and wakes one taker, or sleeps exactly when full; without threads, runs it there. |
| ThreadPools.ThreadPool.Take | muduo/base/ThreadPool.cc:107-126 | The first task, none when stopped and empty, or sleep exactly when empty and running; a bounded queue notifies a producer. |
| ThreadPools.ThreadPool.Stop | muduo/base/ThreadPool.cc:53-59 | Not running from then on; wakes all takers and no producer. |
| ThreadPools.ThreadPool.TestRunning | muduo/base/ThreadPool.cc:142-142 | A worker goes on to `take`, or leaves exactly when the pool is stopped. |
| ThreadPools.ThreadPool.RunInThread | muduo/base/ThreadPool.cc:134-149 | Between any steps of other threads and of its functor the worker tests outside `take`, takes inside, and does nothing only asleep or while its functor is inside `run`; it returns only when the pool is stopped. |
| EventLoopState.StepInv | muduo/net/EventLoop.cc:102-171 | Every step of the loop and of any other threads keeps: a pending functor beside a blocked poll has a wakeup written or about to be. |
| EventLoopState.QueueOrder | muduo/net/EventLoop.cc:293-308 | In every run those executed, under way and pending make up those queued, in order: each runs at most once. |
| EventLoopState.NoLostWakeup | muduo/net/EventLoop.cc:102-171 | If the loop thread queues nothing outside `loop()`, no run blocks beside a pending functor without the wakeup of a `queueInLoop` written or on its way. |
| EventLoopState.QueueBeforeLoop | muduo/net/EventLoop.cc:160-171 | From any state outside `loop()`: a functor queued there by the loop thread is left waiting in some run before it is taken if and only if no other thread has written a wakeup or is about to, for a functor or to quit. |
| EventLoopState.OnePassTakesAll | muduo/net/EventLoop.cc:110-130 | After a poll returns, the pass takes every functor pending by then. |
| EventLoopState.QuitIsNoticed | muduo/net/EventLoop.cc:136-146 | Once `quit` is set the loop never blocks without a wakeup on its way. |
| EventLoopState.QuitTakesEffect | muduo/net/EventLoop.cc:102-146 | From any state and thread: in every continuation the next test of the condition leaves the loop if and only if `loop()` is already running. |
| EventLoopState.QuitBeforeLoopIsForgotten | muduo/net/EventLoop.cc:107-107 | A run in which a `quit` before `loop()` has no effect. |
| EventLoopState.CounterIsWakeups | muduo/net/EventLoop.cc:273-291 | In every run the eventfd's counter is the number of wakeups, for a functor or to quit, since it was last read. |
| EventLoopState.WakesAgainIff | muduo/net/EventLoop.cc:110-130 | After a read, a later poll reports the eventfd again if and only if there has been a wakeup since. |
| EventLoops.EventLoop.QueueInLoop | muduo/net/EventLoop.cc:160-171 | In the loop thread: pushed last; a wakeup exactly when called from a functor. |
| EventLoops.EventLoop.QueueFrom | muduo/net/EventLoop.cc:160-171 | From another thread: pushed, then always woken, anything at all happening in between. |
| EventLoops.EventLoop.HandleRead | muduo/net/EventLoop.cc:283-291 | The counter is 0 afterwards. |
| EventLoops.EventLoop.SwapFunctors | muduo/net/EventLoop.cc:293-301 | Takes all pending functors at once. |
| EventLoops.EventLoop.PerformOthers | muduo/net/EventLoop.cc:136-171 | Halves of `queueInLoop` and `quit` by other threads and by user code, in any order, are the run of those steps. |
| EventLoops.EventLoop.HandleActive | muduo/net/EventLoop.cc:113-128 | The poll returns, handlers queue without a wakeup, the wakeup channel is read when active, other threads acting before and after. |
| EventLoops.EventLoop.RunPass | muduo/net/EventLoop.cc:110-130 | One pass of the loop body is exactly the run of its steps, with anything other threads and user code do at each moment; the functors called are those pending at the swap. |
| EventLoops.EventLoop.Loop | muduo/net/EventLoop.cc:102-134 | For any sequence of passes, other threads acting at every moment, the loop is the run of its tests and passes; it makes every one of them, or leaves on `quit`, no functor lost or repeated. |
| EventLoops.EventLoop.DoPendingFunctors | muduo/net/EventLoop.cc:293-308 | Calls exactly the functors pending at the swap, in order, whatever they and other threads queue meanwhile. |
| EventLoops.EventLoop.CallAll | muduo/net/EventLoop.cc:303-306 | The loop over the functors. |
| LogStreams.TextRoundTrip | muduo/base/LogStream.cc:33-54 | For every integer the text parses back to it, is canonical, and has a sign exactly when negative. |
| LogStreams.ParseRoundTrip | muduo/base/LogStream.cc:33-54 | Every canonical decimal is the text of what it denotes: there is one text per value. |
| LogStreams.NumeralDenotes | muduo/base/LogStream.cc:33-72 | A numeral in any radix denotes its number and has no leading zero. |
| LogStreams.CanonicalIsNumeral | muduo/base/LogStream.cc:33-72 | And is the only such numeral. |
| LogStreams.NextDigit | muduo/base/LogStream.cc:39-44 | One turn of the digit loop, on values of either sign, with the digits yet to come. |
| LogStreams.TextLength | muduo/base/LogStream.cc:97-113 | At most 20 characters for any 64-bit integer, 16 in hexadecimal. |
| LogStreams.ReversedAt | muduo/base/LogStream.cc:51-51 | What reversing does to each position. |
| LogStreams.Reverse | muduo/base/LogStream.cc:51-51 | Reverses the range in place and nothing else. |
| LogStreams.WriteDigits | muduo/base/LogStream.cc:36-44 | The digits, least significant first, of any value without negating it. |
| LogStreams.Convert | muduo/base/LogStream.cc:33-54 | For every 64-bit value, the minimum included: writes its text and a NUL, at most 21 bytes, nothing else. |
| LogStreams.ConvertHex | muduo/base/LogStream.cc:56-72 | The hexadecimal numeral and a NUL, at most 17 bytes. |
| LogStreams.FixedBuffer.Append | muduo/base/LogStream.h:37-45 | Appends all, or nothing unless room is left after it. |
| LogStreams.FixedBuffer.Reset | muduo/base/LogStream.h:55-55 | Empties the buffer. |
| LogStreams.FixedBuffer.FormatInteger | muduo/base/LogStream.cc:105-113 | Appends the text of the value, or nothing with less than 32 bytes left; never passes the end. |
| LogStreams.FixedBuffer.FormatPointer | muduo/base/LogStream.cc:163-175 | The same with `0x` and the hexadecimal numeral. |
| Buffers.IntegerRoundTrip | muduo/net/Buffer.h:221-323 | Every signed integer of a width survives encoding and decoding. |
| Buffers.BytesRoundTrip | muduo/net/Buffer.h:290-323 | Every group of bytes is the encoding of what it decodes to. |
| Buffers.NetworkOrder | muduo/net/Buffer.h:221-252 | The most significant byte comes first, at every width. |
| Buffers.ReadInOrder | muduo/net/Buffer.h:224-284 | However appends and reads of integers of any widths are mixed, the values read and then those still in the buffer are those appended, in order. |
| Buffers.EncodedFirst | muduo/net/Buffer.h:254-323 | Reading finds the integer whose encoding comes first, before any other bytes. |
| Buffers.Buffer.constructor | muduo/net/Buffer.h:48-56 | Empty, with the initial size writable and 8 bytes to prepend. |
| Buffers.Buffer.Retrieve | muduo/net/Buffer.h:113-124 | Drops the first bytes; the reader moves on by as many, or back to the front when nothing is left. |
| Buffers.Buffer.RetrieveAsString | muduo/net/Buffer.h:164-170 | The result and what remains are what was there. |
| Buffers.Buffer.MakeSpace | muduo/net/Buffer.h:390-409 | Makes the room without changing the content; grows exactly when compacting would not do, and then by no more than is needed; its assertion holds. |
| Buffers.Buffer.MoveToFront | muduo/net/Buffer.h:399-406 | The overlapping copy moves the readable bytes intact. |
| Buffers.Buffer.EnsureWritableBytes | muduo/net/Buffer.h:194-201 | Room for the bytes, same content; nothing moves when there is room already. |
| Buffers.Buffer.Append | muduo/net/Buffer.h:182-187 | The bytes are added behind the content; a new vector exactly when compacting would not do. |
| Buffers.Buffer.HasWritten | muduo/net/Buffer.h:209-213 | What was copied behind the content becomes part of it. |
| Buffers.Buffer.Unwrite | muduo/net/Buffer.h:215-219 | Takes back the last bytes. |
| Buffers.Buffer.Prepend | muduo/net/Buffer.h:354-360 | The bytes are put before the content. |
| Buffers.Buffer.Shrink | muduo/net/Buffer.h:362-369 | Same content in a new vector with that much room, or the initial size if that is more. |
| Buffers.Buffer.ReadFd | muduo/net/Buffer.cc:25-57 | All bytes delivered, through the overflow area too, are appended in order; an error changes nothing. |
| Buffers.Buffer.PeekInt | muduo/net/Buffer.h:290-323 | The integer whose big-endian encoding comes first. |
| Buffers.Buffer.ReadInt | muduo/net/Buffer.h:254-284 | And consumes exactly that encoding. |
| Buffers.Buffer.Perform | muduo/net/Buffer.h:113-369 | Each operation acts on the content as its meaning on a sequence. |
| Buffers.Buffer.PerformAll | muduo/net/Buffer.h:113-369 | So does every sequence of operations, up to the first that breaks its asserted precondition, and its reads return the values of the reads on the sequence. |
| Buffers.Buffer.FindCRLF | muduo/net/Buffer.h:80-94 | The first CRLF at or after the start, none if there is none. |
| TcpState.StepInv | muduo/net/TcpConnection.cc:93-375 | Every step of the loop and of threads between the parts of their calls keeps: events only while up, reading until it first went down, the stream, and nothing half-closed before `state_` was set. |
| TcpState.StepTidy | muduo/net/TcpConnection.cc:138-375 | Every step but a set overtaken over unsent bytes keeps the writing mode and half-closes after the last byte. |
| TcpRuns.StreamPreserved | muduo/net/TcpConnection.cc:138-191 | In every run, overtaken calls included, the bytes written followed by `outputBuffer_` are the accepted messages in order. |
| TcpRuns.WritesIff | muduo/net/TcpConnection.cc:193-258 | At every moment of a run, while up, the channel writes exactly when the buffer is not empty: if and only if no call sets `state_` after a close it did not see that left bytes unsent. |
| TcpRuns.AsPromisedIff | muduo/net/TcpConnection.cc:193-258 | At every moment the channel reads exactly while up, a hang-up finds the connection up, the writing mode is right, half-closes come last and it closed at most once: if and only if no close falls between the test and the set of a call. |
| TcpRuns.ClosesCounted | muduo/net/TcpConnection.cc:238-268 | In every run the connection goes down once, and once more for each call a close has overtaken. |
| TcpRuns.CloseFindsItUp | muduo/net/TcpConnection.cc:377-390 | In every run a channel with events finds the connection up; it reads if and only if it is up and no call was overtaken. |
| TcpRuns.CloseAssertsIff | muduo/net/TcpConnection.cc:377-390 | At every moment of a run a hang-up that epoll may report finds the assertion of `handleClose` true: if and only if it never ran for a channel epoll did not watch. |
| TcpRuns.UnwatchedOnlyOvertaken | muduo/net/TcpConnection.cc:238-268 | Which takes a call that a close has overtaken. |
| TcpWatch.UpdateWatches | muduo/net/poller/EPollPoller.cc:108-150 | Whether epoll holds the channel after an update, as the connection reckons, is what the epoll poller does with any channel. |
| TcpWatch.RemovalUnwatches | muduo/net/poller/EPollPoller.cc:152-171 | A removed channel is not held. |
| TcpRuns.HalfCloseAfterDrain | muduo/net/TcpConnection.cc:204-212 | In every run that strands no bytes a half-close finds the buffer empty, unless the connection was down. |
| TcpRuns.OvertakenShutdown | muduo/net/TcpConnection.cc:193-212 | A `shutdown` overtaken by a close can half-close an apparently open connection over unsent bytes, no other call being overtaken, if and only if the close left some. |
| TcpRuns.OvertakenForceClose | muduo/net/TcpConnection.cc:238-268 | A `forceClose` overtaken by a close runs `handleClose` again, after which a hang-up would find its assertion false. |
| TcpRuns.MidCallWitness | muduo/net/TcpConnection.cc:193-202 | A run to a connection closed over unsent bytes in the middle of a `shutdown`. |
| TcpRuns.HalfCloseOverUnsent | muduo/net/TcpConnection.cc:204-212 | In such runs `shutdownInLoop` half-closes over unsent bytes if and only if the connection went down with some. |
| TcpRuns.HalfCloseMeansAllSent | muduo/net/TcpConnection.cc:193-212 | The step that half-closes an open connection leaves every accepted byte in the socket. |
| TcpRuns.HalfClosesCounted | muduo/net/TcpConnection.cc:193-212 | After the first half-close there is one more for each `shutdown` that was under way at that moment and whose functor has run since. |
| TcpRuns.HalfCloseIsFinal | muduo/net/TcpConnection.cc:193-212 | A half-close is the last one, in every continuation, if and only if no `shutdown` is under way. |
| TcpRuns.HalfCloseOnce | muduo/net/TcpConnection.cc:193-212 | At most one in every run in which `shutdown` is called in the loop thread only. |
| TcpRuns.TwiceWitness | muduo/net/TcpConnection.cc:350-358 | A run with two: the buffer drains before the functor of `shutdown` runs. |
| TcpRuns.WriteCompleteMeansAllSent | muduo/net/TcpConnection.cc:153-160 | In every state the write-complete callback is queued only when all accepted bytes are in the socket. |
| TcpRuns.HighWaterOnCrossing | muduo/net/TcpConnection.cc:175-191 | The high-water callback is queued if and only if this send crosses the mark. |
| TcpRuns.DestroyNeedsNoEvents | muduo/net/TcpConnection.cc:303-314 | When no call was overtaken, the channel has no events at its removal if and only if the connection is not disconnecting. |
| TcpMessages.CallsAsBegun | muduo/net/TcpConnection.cc:93-258 | In every run the calls under way in other threads are those whose test passed and that queued nothing yet, each with what it was asked. |
| TcpMessages.FunctorsInOrder | muduo/net/EventLoop.cc:160-171 | In every run the functors of the connection run in the order in which its calls queued them, each once. |
| TcpMessages.MessagesInOrder | muduo/net/TcpConnection.cc:93-110 | In every run the messages sent by other threads reach `sendInLoop` in order: those handed to it and then those still queued are those whose `send` has queued them. |
| TcpMessages.RunAccepts | muduo/net/TcpConnection.cc:126-191 | In every run the accepted messages are those handed to `sendInLoop`, but those handed over when the connection is down or by a direct write that fails with EPIPE or ECONNRESET. |
| TcpMessages.SentExactly | muduo/net/TcpConnection.cc:126-191 | In every run the socket has as many bytes as its writes returned, the first of those messages; the buffer holds the rest. |
| TcpMessages.NothingLost | muduo/net/TcpConnection.cc:93-191 | In every run that refuses none, with sends from other threads only, socket, buffer and queued functors hold exactly their messages, in order. |
| TcpMessages.ShutdownAtOnceIff | muduo/net/TcpConnection.cc:193-211 | In every run, `shutdown` in the loop thread half-closes a connected connection at once if and only if the buffer is empty. |
| TcpConnections.TcpConnection.ConnectEstablished | muduo/net/TcpConnection.cc:292-301 | A connecting connection is up, reading and watched. |
| TcpConnections.TcpConnection.SendInLoop | muduo/net/TcpConnection.cc:138-191 | Over the real buffer: writes directly only when nothing waits, buffers the rest, drops on EPIPE or ECONNRESET. |
| TcpConnections.TcpConnection.Enqueue | muduo/net/TcpConnection.cc:175-191 | The rest goes behind the buffer's bytes and writing is on. |
| TcpConnections.TcpConnection.Send | muduo/net/TcpConnection.cc:93-110 | In the loop thread: only while connected, at once; the message is accepted unless the direct write shows the peer gone. |
| TcpConnections.TcpConnection.Shutdown | muduo/net/TcpConnection.cc:193-202 | In the loop thread: only a connected one starts disconnecting, and half-closes at once unless it is writing. |
| TcpConnections.TcpConnection.ForceClose | muduo/net/TcpConnection.cc:238-246 | In the loop thread: one that is up starts disconnecting, and its close is queued. |
| TcpConnections.TcpConnection.ForceCloseWithDelay | muduo/net/TcpConnection.cc:248-258 | In the loop thread: one that is up starts disconnecting. |
| TcpConnections.TcpConnection.TestState | muduo/net/TcpConnection.cc:193-246 | The test of a call by another thread: `send` and `shutdown` go on only when connected, the others when up. |
| TcpConnections.TcpConnection.SetDisconnecting | muduo/net/TcpConnection.cc:193-258 | Its `setState`, whatever happened to `state_` since the test. |
| TcpConnections.TcpConnection.QueueFunctor | muduo/net/TcpConnection.cc:93-110 | The functor of its call, with the message of a `send`, goes last in the queue; the call is over. |
| TcpConnections.TcpConnection.CallFrom | muduo/net/TcpConnection.cc:93-258 | A whole call by another thread is the run of its parts, with any steps at all between test and set and between set and queue. |
| TcpConnections.TcpConnection.ForceCloseInLoop | muduo/net/TcpConnection.cc:260-268 | Closes a connection that is up. |
| TcpConnections.TcpConnection.RunNextFunctor | muduo/net/EventLoop.cc:303-306 | The first functor of the connection leaves the queue and does what its call asked for, by the state it finds. |
| TcpConnections.TcpConnection.HandleWrite | muduo/net/TcpConnection.cc:337-375 | The bytes written leave the front of the buffer for the socket; when drained stops writing and finishes a pending shutdown. |
| TcpConnections.TcpConnection.HandleClose | muduo/net/TcpConnection.cc:377-390 | Down, with no events left, and updated in epoll; its assertion is its precondition. |
| TcpConnections.TcpConnection.SeePeerClose | muduo/net/TcpConnection.cc:316-329 | A watched channel that sees its peer close, the connection up, calls `handleClose`. |
| TcpConnections.TcpConnection.ConnectDestroyed | muduo/net/TcpConnection.cc:303-314 | The channel is removed without events; a connected connection is down. |
| TcpConnections.TcpConnection.ConnectDestroyedOver | muduo/net/TcpConnection.cc:303-314 | The same when another thread sets `state_` between its test and its set. |
| AsyncState.StepInv | muduo/base/AsyncLogging.cc:28-126 | Every append and every locked region or write of the backend keeps lines, file and spare buffers. |
| AsyncState.LogConservation | muduo/base/AsyncLogging.cc:28-124 | In every run the batches, `buffers_` and `currentBuffer_` hold exactly the appended lines in order, and at rest the file is what the batches emit. |
| AsyncState.AcceptedIffShorter | muduo/base/AsyncLogging.cc:28-50 | In every state a line is logged if and only if it is shorter than 4,000,000 bytes. |
| AsyncState.FileLines | muduo/base/AsyncLogging.cc:86-101 | The file holds the lines of the batches, and of a batch longer than 25 those of its first two buffers alone. |
| AsyncState.LongBatch | muduo/base/AsyncLogging.cc:86-101 | A batch longer than 25 adds to the file one notice that counts all its buffers but two, and then its first two. |
| AsyncState.ShortBatch | muduo/base/AsyncLogging.cc:97-101 | Any other batch adds each of its buffers in turn, and no notice. |
| AsyncState.NothingDropped | muduo/base/AsyncLogging.cc:63-124 | Without such a batch, the file and the buffers hold every appended line in order. |
| AsyncState.StopIsComplete | muduo/base/AsyncLogging.cc:63-126 | At `stop`, with no batch overflowing: in every continuation the ended file holds all that was appended before if and only if the backend is waiting then or the buffers are empty. |
| AsyncState.RunSecured | muduo/base/AsyncLogging.cc:63-126 | After `stop` a backend past its wait swaps no other batch; one that waits swaps everything once more. |
| AsyncState.StopLosesLine | muduo/base/AsyncLogging.cc:63-126 | A run in which the line before `stop` is lost. |
| AsyncState.BuffersRecycle | muduo/base/AsyncLogging.cc:63-123 | In every run `nextBuffer_` is null only if `buffers_` is not empty, the backend starts each pass with two empty spares, and always has enough buffers to recover them. |
| AsyncLoggings.AsyncLogging.Append | muduo/base/AsyncLogging.cc:28-50 | A line goes into the current buffer if it leaves room, otherwise into the next one behind it; it is lost exactly if it is not shorter than 4,000,000 bytes. |
| AsyncLoggings.AsyncLogging.Swap | muduo/base/AsyncLogging.cc:69-84 | The locked swap takes the full buffers and the current one, and puts the spares in their place; its assertions hold. |
| AsyncLoggings.AsyncLogging.DropExcess | muduo/base/AsyncLogging.cc:86-95 | Of more than 25 buffers the first two are left, after a notice that counts the others; of 25 or fewer all. |
| AsyncLoggings.AsyncLogging.WriteAll | muduo/base/AsyncLogging.cc:97-101 | Writes the batch buffer by buffer, producers appending in between. |
| AsyncLoggings.AsyncLogging.AppendAll | muduo/base/AsyncLogging.cc:28-50 | Any lines appended in turn: those shorter than a buffer enter, in order. |
| AsyncLoggings.AsyncLogging.RecycleSpares | muduo/base/AsyncLogging.cc:103-123 | Both spares are back, empty; no pop of an empty vector, even after the drop to two. |
| AsyncLoggings.AsyncLogging.OnePass | muduo/base/AsyncLogging.cc:63-124 | One pass, producers appending all the while, leaves everything appended before the swap in the batches and their output in the file, the rest in the buffers. |
| AsyncLoggings.AsyncLogging.TestRunning | muduo/base/AsyncLogging.cc:63-63 | The backend goes on to its wait, or ends exactly when stopped. |
| Channels.PollIsStricter | muduo/net/Channel.h:56-60 | Owners who keep poll's rules keep epoll's. |
| PollState.StepInv | muduo/net/poller/PollPoller.cc:77-141 | Every update and removal keeps: a registered channel's entry is at its index, under its descriptor or the encoded one, with its events; each entry's channel points back. |
| PollState.AssertedIffAllowed | muduo/net/poller/PollPoller.cc:77-141 | The assertions hold if and only if the channel was not removed, its descriptor is not taken, and a removal comes after a disabling update. |
| PollState.RunIffAllowed | muduo/net/poller/PollPoller.cc:77-141 | A whole run passes every assertion if and only if the owners keep these rules all along, and then follows their wishes. |
| PollState.DenseBijection | muduo/net/poller/PollPoller.cc:77-141 | `pollfds_`, `channels_` and the registered channels correspond one to one. |
| PollState.RemoveMovesOnlyLast | muduo/net/poller/PollPoller.cc:126-140 | Removal changes the index of the last entry's channel only, to the freed place, and no other channel's entry. |
| PollState.PolledIffNeverDisabled | muduo/net/poller/PollPoller.cc:97-110 | The wish of a registered channel reaches poll(2) if and only if the channel was never disabled. |
| PollState.ReenabledIsIgnored | muduo/net/poller/PollPoller.cc:101-109 | A channel disabled and enabled again is not polled. |
| PollState.IdleFromTheStart | muduo/net/poller/PollPoller.cc:81-93 | A channel first updated with no events cannot be removed. |
| PollState.ActiveExactly | muduo/net/poller/PollPoller.cc:57-75 | A registered channel is active if and only if its own entry reports, in entry order, each once. |
| PollState.NoReportsNoneActive | muduo/net/poller/PollPoller.cc:60-61 | Once the count is used up no active channel is left, so stopping early misses none. |
| PollPollers.PollPoller.Update | muduo/net/poller/PollPoller.cc:77-111 | Passes its assertions; a new channel's entry goes last, a known one's takes the mask, encoded when empty. |
| PollPollers.PollPoller.Remove | muduo/net/poller/PollPoller.cc:113-141 | Passes its assertions and performs the swap-remove. |
| PollPollers.PollPoller.EraseEntry | muduo/net/poller/PollPoller.cc:126-140 | The swap with the last entry, and that channel's new index. |
| PollPollers.PollPoller.Poll | muduo/net/poller/PollPoller.cc:34-55 | The active channels are exactly the reporting ones; none when poll(2) fails or times out. |
| PollPollers.PollPoller.FillActiveChannels | muduo/net/poller/PollPoller.cc:57-75 | The early-stopping loop finds all reporting channels and sets their events, and no others'. |
| EPollState.StepInv | muduo/net/poller/EPollPoller.cc:108-193 | Every step keeps the index states and the kernel set in agreement, and every ADD, MOD and DEL is valid when issued. |
| EPollState.AssertedIffAllowed | muduo/net/poller/EPollPoller.cc:108-172 | The assertions hold if and only if descriptors are not shared and only registered channels without events are removed. |
| EPollState.RunIffAllowed | muduo/net/poller/EPollPoller.cc:108-193 | A whole run passes every assertion if and only if the owners keep these rules, and then no epoll_ctl fails. |
| EPollState.KernelExactly | muduo/net/poller/EPollPoller.cc:108-193 | The kernel set is exactly the kAdded channels with their current masks; kDeleted implies no events. |
| EPollState.WatchedIffWanted | muduo/net/poller/EPollPoller.cc:108-150 | A registered channel's wish for events always reaches the kernel. |
| EPollState.EmptyMaskToggles | muduo/net/poller/EPollPoller.cc:114-149 | Disabling a channel that is already deleted adds it again with an empty mask, and only then. |
| Pollers.SameInterestIff | muduo/net/Poller.h:44-50 | Under the same owners both pollers complete, and ask the kernel the same if and only if no channel once disabled wants events again. |
| EPollPollers.EPollPoller.Update | muduo/net/poller/EPollPoller.cc:108-150 | Passes its assertions, issues one valid operation; the kernel holds the new mask, or nothing if an added channel wants no events. |
| EPollPollers.EPollPoller.Remove | muduo/net/poller/EPollPoller.cc:152-172 | Passes its assertions; neither the map nor the kernel holds the channel. |
| EPollPollers.EPollPoller.Ctl | muduo/net/poller/EPollPoller.cc:173-193 | The operation on the kernel set, or its refusal. |
| EPollPollers.EPollPoller.Poll | muduo/net/poller/EPollPoller.cc:56-86 | The reported channels in order with their events; a full event list doubles. |
| EPollPollers.EPollPoller.FillActiveChannels | muduo/net/poller/EPollPoller.cc:90-106 | Every channel the kernel reports is registered, known by its descriptor and kAdded. |

## Left out

- The ZooKeeper client: ZkClient.cc and ZkClientManager.cc are not part of this model.
- Sockets, InetAddress, Acceptor, LogFile and the other wrappers of system calls and libraries: their results are parameters.
- Connector, TcpServer, TcpClient, EventLoopThreadPool: start, stop and retry wiring on top of the modelled parts.
- The inside of Mutex, Condition, Atomic and Thread: locked regions are atomic steps.
- readTimeZoneFile: the zone is taken as built; `WellFormed` is what it builds.
- gmtime_r and timegm inside `toLocalTime` and `fromLocalTime`: replaced by the library's own `toUtcTime` and `fromUtcTime`, for local times of the calendar era.
- Day numbers above 536838867, where `4 * a + 3` overflows an int: the round trips are over unbounded integers; `Dates.NoOverflow` gives the range where the two agree.
- Floating point: a timer's interval is a whole number of microseconds, and `repeat_` a flag of its own.
- The two clocks of timers: `Timestamp::now` and the timerfd's clock are one.
- `addTimer` from another thread reads the timer's sequence number after handing the timer over, when the loop may have deleted it; the model reads it at construction.
- Cancelling through `runInLoop`: the model has the in-loop half as a step, at any moment it can occur.
- The queue's destructor, which deletes the timers still queued.
- Raw pointers: timers are an address-indexed store, whose addresses are used again after a free; `std::set` is an ordered sequence or a set, `std::vector` of pointers a sequence.
- The waiting loops of the queues: one turn of a loop is one `Put` or `Take`, which a woken thread calls again.
- The functors of a thread pool beyond their calls of `run`; exceptions; joining, and so a functor that stops its own pool.
- `runInLoop` called in the loop thread calls the functor itself; channel handlers other than the wakeup's are part of a poll's return.
- Large values of the eventfd counter: it is unbounded, and its reads and writes do not fail.
- Callback bodies, shared and weak pointers, the connection callback; the write-complete and high-water callbacks are taken as set, and are recorded when queued.
- `handleRead` and `handleError` of a connection: the input side is `Buffers.Buffer.ReadFd`; a read of 0 bytes is the close step.
- The timer of `forceCloseWithDelay`: its expiry is a `ForceClose` step at some later moment.
- Concurrent accesses to `state_`, `running_` and `quit_` as data races of C++: each access is one step.
- The content of a log buffer as bytes: a buffer is the list of lines in it, with their total length; `LogStreams.FixedBuffer` is the byte-level buffer. A dropped batch's notice is one item, its text is not modelled.
- Flush, roll and the timed wait of the logger; the backend may pass its wait at any time.
- Double formatting and `Fmt`.
- Channel event dispatch, in which one report can call several handlers; a channel's mask is any number that fits the `short` of a `pollfd`.
- Descriptors closed behind a poller's back; `hasChannel`.
