/**
 The ordered set of `(expiration, Timer*)` entries, as the strictly increasing sequence its
 iteration visits.
 */
module TimerEntries {

  datatype Entry = Entry(when: int, addr: nat)

  /** `operator<` of `std::pair<Timestamp, Timer*>`. */
  predicate Less(a: Entry, b: Entry) {
    a.when < b.when || (a.when == b.when && a.addr < b.addr)
  }

  predicate Sorted(s: seq<Entry>) {
    forall i, j :: 0 <= i < j < |s| ==> Less(s[i], s[j])
  }

  /** A sorted sequence by its first element and the rest. */
  lemma SortedRest(s: seq<Entry>)
    requires s != []
    ensures s == [s[0]] + s[1..]
    ensures Sorted(s) ==> Sorted(s[1..]) && forall x <- s[1..] :: Less(s[0], x)
  {
  }

  lemma SortedFrom(e: Entry, s: seq<Entry>)
    ensures Sorted(s) && (forall x <- s :: Less(e, x)) ==> Sorted([e] + s)
  {
  }

  /** What is less than the first is less than all. */
  lemma LessThanAll(e: Entry, s: seq<Entry>)
    ensures Sorted(s) && s != [] && Less(e, s[0]) ==> forall x <- s :: Less(e, x)
  {
  }

  function Insert(s: seq<Entry>, e: Entry): (r: seq<Entry>)
    ensures forall x :: x in r <==> x == e || x in s
    ensures |r| == |s| + 1
    ensures r[0] == if s == [] || Less(e, s[0]) then e else s[0]
    ensures Sorted(s) && e !in s ==> Sorted(r)
  {
    if s == [] || Less(e, s[0]) then
      LessThanAll(e, s);
      SortedFrom(e, s);
      [e] + s
    else
      SortedRest(s);
      var rest := Insert(s[1..], e);
      SortedFrom(s[0], rest);
      [s[0]] + rest
  }

  function Erase(s: seq<Entry>, e: Entry): (r: seq<Entry>)
    ensures forall x :: x in r ==> x in s
    ensures forall x :: x in s && x != e ==> x in r
    ensures Sorted(s) ==> Sorted(r) && e !in r
    ensures e in s ==> |r| == |s| - 1
    ensures e !in s ==> r == s
    ensures Sorted(s) && r != [] ==> !Less(r[0], s[0])
  {
    if s == [] then []
    else if s[0] == e then
      SortedRest(s);
      s[1..]
    else
      SortedRest(s);
      var rest := Erase(s[1..], e);
      SortedFrom(s[0], rest);
      [s[0]] + rest
  }

  /** Index of the first entry not less than `sentry`: `lower_bound`. */
  function LowerBound(s: seq<Entry>, sentry: Entry): (k: nat)
    ensures k <= |s|
    ensures forall i :: 0 <= i < k ==> Less(s[i], sentry)
    ensures k < |s| ==> !Less(s[k], sentry)
  {
    if s == [] || !Less(s[0], sentry) then 0 else 1 + LowerBound(s[1..], sentry)
  }
}

/**
 The timer queue as a state machine: what each operation of `TimerQueue` does to the two indexes,
 the timers they point at, and the one-shot kernel alarm. Timers live in a store of addresses, so
 that a freed address can be handed out again.
 */
module TimerState {
  import opened TimerEntries

  const UINTPTR_MAX: nat := 0xFFFF_FFFF_FFFF_FFFF

  /** `interval` in microseconds; meaningful only when `repeat`. */
  datatype Timer = Timer(expiration: int, interval: nat, repeat: bool, sequence: nat)

  /** Also the element type of `activeTimers_` and `cancelingTimers_`. */
  datatype TimerId = TimerId(addr: nat, sequence: nat)

  /** The timerfd: when it was set and for when, or expired and not yet read. */
  datatype Alarm = Disarmed | Armed(at: int, deadline: int) | Fired

  /** Where `handleRead` is: its `now`, the batch it took, and how far it got. */
  datatype Phase =
    | Idle
    | Calling(now: int, expired: seq<Entry>, next: nat, start: nat)
    | Resetting(now: int, rest: seq<Entry>)

  /** History: timer `sequence` was run by the `batch`-th `handleRead`. */
  datatype Ran = Ran(batch: nat, sequence: nat)

  datatype State = State(
    heap: map<nat, Timer>,
    created: nat,
    pending: set<nat>,
    timers: seq<Entry>,
    active: set<TimerId>,
    phase: Phase,
    canceling: set<TimerId>,
    alarm: Alarm,
    clock: int,
    batches: nat,
    ran: seq<Ran>,
    freed: seq<nat>)

  function Init(clock: int): State {
    State(map[], 0, {}, [], {}, Idle, {}, Disarmed, clock, 0, [], [])
  }

  /**
   One step. `Construct` is `new Timer`, by any thread; `Insert` and `Cancel` are the in-loop halves of
   adding and cancelling, between alarms or inside a callback; the rest is `handleRead`, its callbacks
   one by one, then the reset loop. `Tick` and `Fire` are the clock and the kernel.
   */
  datatype Step =
    | Construct(addr: nat, when: int, interval: nat, repeat: bool)
    | Insert(insertAddr: nat)
    | Cancel(id: TimerId)
    | Tick(delta: nat)
    | Fire
    | BeginRead
    | RunNext
    | StopCalling
    | ResetOne
    | Rearm

  predicate Enabled(s: State, step: Step) {
    match step
    case Construct(addr, _, _, _) => addr !in s.heap && addr < UINTPTR_MAX
    case Insert(addr) => addr in s.pending && addr in s.heap && !s.phase.Resetting?
    case Cancel(id) => !s.phase.Resetting?
    case Tick(_) => true
    case Fire => s.alarm.Armed? && s.alarm.deadline <= s.clock
    case BeginRead => s.phase.Idle?
    case RunNext => s.phase.Calling? && s.phase.next < |s.phase.expired|
                    && s.phase.expired[s.phase.next].addr in s.heap
    case StopCalling => s.phase.Calling? && s.phase.next == |s.phase.expired|
    case ResetOne => s.phase.Resetting? && s.phase.rest != [] && s.phase.rest[0].addr in s.heap
    case Rearm => s.phase.Resetting? && s.phase.rest == []
  }

  // ---------- The operations ----------

  datatype TimeSpec = TimeSpec(sec: int, nsec: int)

  /** The relative time given to the kernel: whole seconds and nanoseconds, at least 100 microseconds. */
  function HowMuchTimeFromNow(when: int, now: int): (ts: TimeSpec)
    ensures 0 <= ts.sec && 0 <= ts.nsec < 1_000_000_000
    ensures ts.sec * 1_000_000_000 + ts.nsec == 1000 * (if when - now < 100 then 100 else when - now)
  {
    var microseconds := if when - now < 100 then 100 else when - now;
    TimeSpec(microseconds / 1_000_000, microseconds % 1_000_000 * 1000)
  }

  /** `resetTimerfd`: set the alarm, forgetting any unread expiry. */
  function Arm(when: int, now: int): (alarm: Alarm)
    ensures alarm == Armed(now, if when < now + 100 then now + 100 else when)
  {
    var ts := HowMuchTimeFromNow(when, now);
    Armed(now, now + ts.sec * 1_000_000 + ts.nsec / 1000)
  }

  function IdOf(s: State, addr: nat): TimerId
    requires addr in s.heap
  {
    TimerId(addr, s.heap[addr].sequence)
  }

  predicate BecomesEarliest(s: State, when: int) {
    s.timers == [] || when < s.timers[0].when
  }

  /** `insert`: the timer enters both indexes. */
  function InsertTimer(s: State, addr: nat): State
    requires addr in s.heap
  {
    s.(timers := TimerEntries.Insert(s.timers, Entry(s.heap[addr].expiration, addr)),
       active := s.active + {IdOf(s, addr)})
  }

  function Free(s: State, addr: nat): State
    requires addr in s.heap
  {
    s.(heap := s.heap - {addr}, freed := s.freed + [s.heap[addr].sequence])
  }

  function AddTimerInLoop(s: State, addr: nat): State
    requires addr in s.heap
  {
    var s' := InsertTimer(s, addr).(pending := s.pending - {addr});
    if BecomesEarliest(s, s.heap[addr].expiration) then s'.(alarm := Arm(s.heap[addr].expiration, s.clock)) else s'
  }

  function CancelInLoop(s: State, id: TimerId): State {
    if id in s.active && id.addr in s.heap then
      Free(s.(timers := Erase(s.timers, Entry(s.heap[id.addr].expiration, id.addr)),
              active := s.active - {id}), id.addr)
    else if s.phase.Calling? then
      s.(canceling := s.canceling + {id})
    else s
  }

  function ExpiredCount(s: State, now: int): (k: nat)
    ensures k <= |s.timers|
  {
    LowerBound(s.timers, Entry(now, UINTPTR_MAX))
  }

  function Begin(s: State): State {
    var k := ExpiredCount(s, s.clock);
    var expired := s.timers[..k];
    s.(timers := s.timers[k..],
       active := (set id | id in s.active &&
                           !(id.addr in s.heap && Entry(s.heap[id.addr].expiration, id.addr) in expired)),
       phase := Calling(s.clock, expired, 0, |s.ran|),
       canceling := {},
       alarm := if s.alarm.Fired? then Disarmed else s.alarm,
       batches := s.batches + 1)
  }

  /** One turn of the loop in `reset`: a repeating timer that was not cancelled restarts, any other is deleted. */
  function ResetFirst(s: State): State
    requires Enabled(s, ResetOne)
  {
    var addr := s.phase.rest[0].addr;
    var s' := s.(phase := s.phase.(rest := s.phase.rest[1..]));
    var t := s.heap[addr];
    if t.repeat && IdOf(s, addr) !in s.canceling then
      InsertTimer(s'.(heap := s.heap[addr := t.(expiration := s.phase.now + t.interval)]), addr)
    else
      Free(s', addr)
  }

  /** The end of `reset`: the alarm is set for the earliest timer when its expiration is a valid timestamp. */
  function SetNextAlarm(s: State): State {
    if s.timers != [] && s.timers[0].addr in s.heap && s.heap[s.timers[0].addr].expiration > 0 then
      s.(phase := Idle, alarm := Arm(s.heap[s.timers[0].addr].expiration, s.clock))
    else
      s.(phase := Idle)
  }

  /** A disabled step changes nothing. */
  function Apply(s: State, step: Step): State {
    if !Enabled(s, step) then s
    else
      match step
      case Construct(addr, when, interval, repeat) =>
        s.(heap := s.heap[addr := Timer(when, interval, repeat, s.created + 1)],
           created := s.created + 1, pending := s.pending + {addr})
      case Insert(addr) => AddTimerInLoop(s, addr)
      case Cancel(id) => CancelInLoop(s, id)
      case Tick(delta) => s.(clock := s.clock + delta)
      case Fire => s.(alarm := Fired)
      case BeginRead => Begin(s)
      case RunNext =>
        s.(ran := s.ran + [Ran(s.batches, s.heap[s.phase.expired[s.phase.next].addr].sequence)],
           phase := s.phase.(next := s.phase.next + 1))
      case StopCalling => s.(phase := Resetting(s.phase.now, s.phase.expired))
      case ResetOne => ResetFirst(s)
      case Rearm => SetNextAlarm(s)
  }

  function Run(s: State, steps: seq<Step>): State
    decreases |steps|
  {
    if steps == [] then s else Run(Apply(s, steps[0]), steps[1..])
  }

  lemma {:induction false} RunConcat(s: State, a: seq<Step>, b: seq<Step>)
    ensures Run(s, a + b) == Run(Run(s, a), b)
    decreases |a|
  {
    if a == [] {
      assert a + b == b;
    } else {
      assert (a + b)[1..] == a[1..] + b;
      RunConcat(Apply(s, a[0]), a[1..], b);
    }
  }

  // ---------- The invariant ----------

  /** The batch entries whose timers `handleRead` still owns. */
  function Flying(s: State): seq<Entry> {
    match s.phase
    case Idle => []
    case Calling(_, expired, _, _) => expired
    case Resetting(_, rest) => rest
  }

  predicate Queued(s: State, addr: nat) {
    addr in s.heap && Entry(s.heap[addr].expiration, addr) in s.timers
  }

  predicate InFlight(s: State, addr: nat) {
    addr in s.heap && Entry(s.heap[addr].expiration, addr) in Flying(s)
  }

  /** Both entry lists are ordered sets, keyed by the expiration of a live timer. */
  ghost predicate Keyed(s: State) {
    && Sorted(s.timers)
    && Sorted(Flying(s))
    && (forall e :: e in s.timers ==> e.addr in s.heap && s.heap[e.addr].expiration == e.when)
    && (forall e :: e in Flying(s) ==> e.addr in s.heap && s.heap[e.addr].expiration == e.when)
  }

  /** `activeTimers_` is the other view of `timers_`. */
  ghost predicate Agree(s: State) {
    forall id :: id in s.active <==> Queued(s, id.addr) && s.heap[id.addr].sequence == id.sequence
  }

  /** Each live timer is waiting to be inserted, queued, or in the batch: exactly one of the three. */
  ghost predicate Owned(s: State) {
    && s.pending <= s.heap.Keys
    && (forall a :: a in s.heap ==> a < UINTPTR_MAX)
    && (forall a :: a in s.heap ==> a in s.pending || Queued(s, a) || InFlight(s, a))
    && (forall a :: a in s.pending ==> !Queued(s, a) && !InFlight(s, a))
    && (forall a :: Queued(s, a) ==> !InFlight(s, a))
  }

  ghost predicate Live(s: State, sequence: nat) {
    exists a :: a in s.heap && s.heap[a].sequence == sequence
  }

  /** Sequence numbers are unique, and every number given out is live or was freed exactly once. */
  ghost predicate Sequenced(s: State) {
    && (forall a :: a in s.heap ==> 1 <= s.heap[a].sequence <= s.created)
    && (forall a, b :: a in s.heap && b in s.heap && s.heap[a].sequence == s.heap[b].sequence ==> a == b)
    && (forall q :: q in s.freed ==> 1 <= q <= s.created && !Live(s, q))
    && (forall q :: 1 <= q <= s.created ==> q in s.freed || Live(s, q))
    && (forall i, j :: 0 <= i < j < |s.freed| ==> s.freed[i] != s.freed[j])
  }

  /** The alarm will go off in time for a timer due at `when`, or went off and waits to be read. */
  predicate InTime(alarm: Alarm, when: int) {
    alarm.Fired? || (alarm.Armed? && (alarm.deadline <= when || alarm.deadline <= alarm.at + 100))
  }

  ghost predicate Alarmed(s: State) {
    && s.clock > 0
    && (s.phase.Idle? && s.timers != [] ==> InTime(s.alarm, s.timers[0].when))
    && (!s.phase.Idle? ==> 0 < s.phase.now <= s.clock)
    && (s.timers != [] && s.timers[0].when <= 0 ==> InTime(s.alarm, s.timers[0].when))
  }

  /** During a batch the history ends with the callbacks already made, in the order of the batch. */
  ghost predicate Logged(s: State) {
    s.phase.Calling? ==>
      var p := s.phase;
      && p.next <= |p.expired| && |s.ran| == p.start + p.next
      && (forall e :: e in p.expired ==> e.when <= p.now)
      && (forall j :: 0 <= j < p.next ==>
            p.expired[j].addr in s.heap
            && s.ran[p.start + j] == Ran(s.batches, s.heap[p.expired[j].addr].sequence))
  }

  ghost predicate Inv(s: State) {
    Keyed(s) && Agree(s) && Owned(s) && Sequenced(s) && Alarmed(s) && Logged(s)
  }
}
