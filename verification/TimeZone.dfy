/**
 `muduo::TimeZone`: broken-down UTC time and its inverse, and local time over a table of
 offset transitions, with the lookup by binary search and the correction for the repeated hour.
 */
module TimeZones {
  import opened CInt
  import Dates

  const SECONDS_PER_DAY: int := 86400

  /** The first second the calendar formula can represent: 1 March -4800, 00:00:00 UTC. */
  const FIRST_SECOND: int := -213635404800

  /** `struct tm`. */
  datatype Tm = Tm(sec: int, min: int, hour: int, mday: int, mon: int, year: int,
                   wday: int, yday: int, isDst: bool, gmtOffset: int)

  const ZERO_TM: Tm := Tm(0, 0, 0, 0, 0, 0, 0, 0, false, 0)

  // ---------- UTC ----------

  /** What broken-down UTC time is: the floor of the day, and the seconds since its midnight. */
  function UtcTm(t: int, yday: bool): Tm {
    var n := t / SECONDS_PER_DAY + Dates.JULIAN_DAY_OF_1970_01_01;
    var s := t % SECONDS_PER_DAY;
    var date := Dates.FromJulianDay(n);
    Tm(s % 60, s / 60 % 60, s / 3600, date.day, date.month - 1, date.year - 1900, Dates.WeekDay(n),
       if yday then n - Dates.JulianDayNumber(date.year, 1, 1) else 0, false, 0)
  }

  method FillHMS(seconds: nat, utc: Tm) returns (filled: Tm)
    ensures filled == utc.(sec := filled.sec, min := filled.min, hour := filled.hour)
    ensures filled.hour * 3600 + filled.min * 60 + filled.sec == seconds
    ensures 0 <= filled.sec < 60 && 0 <= filled.min < 60 && 0 <= filled.hour
  {
    filled := utc.(sec := seconds % 60);
    var minutes := seconds / 60;
    filled := filled.(min := minutes % 60);
    filled := filled.(hour := minutes / 60);
  }

  method ToUtcTime(secondsSinceEpoch: int, yday: bool) returns (utc: Tm)
    ensures utc == UtcTm(secondsSinceEpoch, yday)
  {
    hide Dates.FromJulianDay, Dates.WeekDay, Dates.JulianDayNumber;
    utc := ZERO_TM;
    var seconds := Rem(secondsSinceEpoch, SECONDS_PER_DAY);
    var days := Quot(secondsSinceEpoch, SECONDS_PER_DAY);
    if seconds < 0 {
      seconds := seconds + SECONDS_PER_DAY;
      days := days - 1;
    }
    FloorOfDay(secondsSinceEpoch, days, seconds);
    utc := FillHMS(seconds, utc);
    HoursMinutesSeconds(seconds, utc.hour, utc.min, utc.sec);
    var julian := days + Dates.JULIAN_DAY_OF_1970_01_01;
    var date := Dates.FromJulianDay(julian);
    utc := utc.(year := date.year - 1900, mon := date.month - 1, mday := date.day, wday := Dates.WeekDay(julian));
    if yday {
      utc := utc.(yday := julian - Dates.JulianDayNumber(date.year, 1, 1));
    }
  }

  lemma FloorOfDay(t: int, days: int, seconds: int)
    requires t == days * SECONDS_PER_DAY + seconds && 0 <= seconds < SECONDS_PER_DAY
    ensures t / SECONDS_PER_DAY == days && t % SECONDS_PER_DAY == seconds
  {
  }

  lemma HoursMinutesSeconds(s: nat, hour: nat, min: nat, sec: nat)
    requires s == hour * 3600 + min * 60 + sec && min < 60 && sec < 60
    ensures s % 60 == sec && s / 60 % 60 == min && s / 3600 == hour
  {
    assert s / 60 == hour * 60 + min;
  }

  function FromUtc(year: int, month: int, day: int, hour: int, minute: int, seconds: int): int {
    var secondsInDay := hour * 3600 + minute * 60 + seconds;
    var days := Dates.JulianDayNumber(year, month, day) - Dates.JULIAN_DAY_OF_1970_01_01;
    days * SECONDS_PER_DAY + secondsInDay
  }

  function FromUtcTm(utc: Tm): int {
    FromUtc(utc.year + 1900, utc.mon + 1, utc.mday, utc.hour, utc.min, utc.sec)
  }

  /** Every second from the start of the era on, negative ones included, survives the trip. */
  lemma UtcRoundTrip(t: int, yday: bool)
    requires t >= FIRST_SECOND
    ensures FromUtcTm(UtcTm(t, yday)) == t
  {
    hide Dates.FromJulianDay, Dates.JulianDayNumber, Dates.WeekDay, Dates.InEra;
    var days, s := t / SECONDS_PER_DAY, t % SECONDS_PER_DAY;
    assert days >= Dates.FIRST_JULIAN_DAY - Dates.JULIAN_DAY_OF_1970_01_01;
    Dates.DayNumberRoundTrip(days + Dates.JULIAN_DAY_OF_1970_01_01);
    HoursMinutesSecondsOf(s);
  }

  lemma HoursMinutesSecondsOf(s: nat)
    ensures s / 3600 * 3600 + s / 60 % 60 * 60 + s % 60 == s
  {
    assert s / 3600 == s / 60 / 60;
  }

  /** Every calendar time of day survives the opposite trip. */
  lemma UtcFieldsRoundTrip(d: Dates.Date, hour: nat, min: nat, sec: nat, yday: bool)
    requires Dates.InEra(d) && hour < 24 && min < 60 && sec < 60
    ensures var utc := UtcTm(FromUtc(d.year, d.month, d.day, hour, min, sec), yday);
            && Dates.Date(utc.year + 1900, utc.mon + 1, utc.mday) == d
            && utc.hour == hour && utc.min == min && utc.sec == sec
  {
    hide Dates.FromJulianDay, Dates.JulianDayNumber;
    var t := FromUtc(d.year, d.month, d.day, hour, min, sec);
    var s := hour * 3600 + min * 60 + sec;
    FloorOfDay(t, Dates.DayNumber(d) - Dates.JULIAN_DAY_OF_1970_01_01, s);
    HoursMinutesSeconds(s, hour, min, sec);
    Dates.DateRoundTrip(d);
  }

  /** Every broken-down field is in its range; the weekday only from day number -1 on, or on a Sunday. */
  lemma UtcFieldsInRange(t: int)
    requires t >= FIRST_SECOND
    ensures var utc := UtcTm(t, true);
            && 0 <= utc.sec < 60 && 0 <= utc.min < 60 && 0 <= utc.hour < 24
            && 1 <= utc.mday <= Dates.DaysInMonth(utc.year + 1900, utc.mon + 1) && 0 <= utc.mon < 12
            && (utc.year + 1900 > -4800 ==>
                  0 <= utc.yday <= 365
                  && utc.yday == Dates.DayOfYear(Dates.Date(utc.year + 1900, utc.mon + 1, utc.mday)))
            && (0 <= utc.wday <= 6 <==>
                  var n := t / SECONDS_PER_DAY + Dates.JULIAN_DAY_OF_1970_01_01; n >= -1 || (n + 1) % 7 == 0)
  {
    hide Dates.FromJulianDay, Dates.JulianDayNumber, Dates.WeekDay;
    var n := t / SECONDS_PER_DAY + Dates.JULIAN_DAY_OF_1970_01_01;
    var d := Dates.FromJulianDay(n);
    assert n >= Dates.FIRST_JULIAN_DAY;
    Dates.DayNumberRoundTrip(n);
    Dates.WeekDayCycles(n);
    if d.year > -4800 {
      Dates.DayOfYearByNumbers(d);
    }
  }

  /** Consecutive days cycle the weekday and advance the calendar by one day. */
  lemma UtcTomorrow(t: int)
    requires t >= FIRST_SECOND && t >= (-1 - Dates.JULIAN_DAY_OF_1970_01_01) * SECONDS_PER_DAY
    ensures var today, tomorrow := UtcTm(t, false), UtcTm(t + SECONDS_PER_DAY, false);
            && tomorrow.wday == (if today.wday == 6 then 0 else today.wday + 1)
            && Dates.Valid(Dates.Date(today.year + 1900, today.mon + 1, today.mday))
            && Dates.Date(tomorrow.year + 1900, tomorrow.mon + 1, tomorrow.mday)
               == Dates.NextDay(Dates.Date(today.year + 1900, today.mon + 1, today.mday))
            && (tomorrow.hour, tomorrow.min, tomorrow.sec) == (today.hour, today.min, today.sec)
  {
    hide Dates.FromJulianDay, Dates.JulianDayNumber, Dates.WeekDay;
    var n := t / SECONDS_PER_DAY + Dates.JULIAN_DAY_OF_1970_01_01;
    assert n >= -1;
    FloorOfDay(t + SECONDS_PER_DAY, t / SECONDS_PER_DAY + 1, t % SECONDS_PER_DAY);
    Dates.WeekDayCycles(n);
    Dates.DayNumberRoundTrip(n);
    Dates.NextDayNumber(Dates.FromJulianDay(n));
    Dates.DateRoundTrip(Dates.NextDay(Dates.FromJulianDay(n)));
  }

  // ---------- Transition tables ----------

  datatype Localtime = Localtime(gmtOffset: int, isDst: bool)

  datatype Transition = Transition(gmttime: int, localtime: int, localtimeIdx: nat)

  datatype Zone = Zone(transitions: seq<Transition>, localtimes: seq<Localtime>)

  /** The field `Comp` compares by. */
  function Key(tr: Transition, compareGmt: bool): int {
    if compareGmt then tr.gmttime else tr.localtime
  }

  predicate Sorted(ts: seq<Transition>, compareGmt: bool) {
    forall i, j :: 0 <= i < j < |ts| ==> Key(ts[i], compareGmt) < Key(ts[j], compareGmt)
  }

  /** What reading a zone file builds: 32-bit times and offsets, indexes into `localtimes`, times in order. */
  predicate WellFormed(z: Zone) {
    && |z.localtimes| > 0
    && (forall l :: l in z.localtimes ==> InInt32(l.gmtOffset))
    && (forall tr :: tr in z.transitions ==>
          && tr.localtimeIdx < |z.localtimes|
          && InInt32(tr.gmttime)
          && tr.localtime == tr.gmttime + z.localtimes[tr.localtimeIdx].gmtOffset)
    && Sorted(z.transitions, true)
  }

  /** `k` is the last transition whose key is at or before `x`; -1 when there is none. */
  predicate LastAtOrBefore(ts: seq<Transition>, x: int, compareGmt: bool, k: int) {
    && -1 <= k < |ts|
    && (forall j :: 0 <= j <= k ==> Key(ts[j], compareGmt) <= x)
    && (forall j :: k < j < |ts| ==> x < Key(ts[j], compareGmt))
  }

  /** The local time type in force after transition `k`; before all of them, the first type of the zone. */
  function InForce(z: Zone, k: int): Localtime
    requires WellFormed(z) && -1 <= k < |z.transitions|
  {
    if k < 0 then z.localtimes[0]
    else z.localtimes[z.transitions[k].localtimeIdx]
  }

  /** The index that decides the local time type, found by scanning from the end. */
  function Lookup(ts: seq<Transition>, x: int, compareGmt: bool): (k: int)
    ensures -1 <= k < |ts|
    ensures Sorted(ts, compareGmt) ==> LastAtOrBefore(ts, x, compareGmt, k)
  {
    if |ts| == 0 then -1
    else if Key(ts[|ts| - 1], compareGmt) <= x then |ts| - 1
    else Lookup(ts[..|ts| - 1], x, compareGmt)
  }

  lemma LookupUnique(ts: seq<Transition>, x: int, compareGmt: bool, k: int)
    requires Sorted(ts, compareGmt) && LastAtOrBefore(ts, x, compareGmt, k)
    ensures k == Lookup(ts, x, compareGmt)
  {
    var other := Lookup(ts, x, compareGmt);
    assert k >= 0 ==> Key(ts[k], compareGmt) <= x;
    assert other >= 0 ==> Key(ts[other], compareGmt) <= x;
  }

  /** `std::lower_bound` over the transitions. */
  method LowerBound(ts: seq<Transition>, sentry: int, compareGmt: bool) returns (first: nat)
    requires Sorted(ts, compareGmt)
    ensures first <= |ts|
    ensures forall j :: 0 <= j < first ==> Key(ts[j], compareGmt) < sentry
    ensures forall j :: first <= j < |ts| ==> sentry <= Key(ts[j], compareGmt)
  {
    first := 0;
    var len := |ts|;
    while len > 0
      invariant 0 <= first && 0 <= len && first + len <= |ts|
      invariant forall j :: 0 <= j < first ==> Key(ts[j], compareGmt) < sentry
      invariant forall j :: first + len <= j < |ts| ==> sentry <= Key(ts[j], compareGmt)
    {
      var half := len / 2;
      var middle := first + half;
      if Key(ts[middle], compareGmt) < sentry {
        first := middle + 1;
        len := len - half - 1;
      } else {
        len := half;
      }
    }
  }

  method FindLocaltime(z: Zone, sentry: int, compareGmt: bool) returns (local: Localtime)
    requires WellFormed(z) && Sorted(z.transitions, compareGmt)
    ensures local == InForce(z, Lookup(z.transitions, sentry, compareGmt))
  {
    hide Sorted, Lookup, InForce;
    var ts := z.transitions;
    if |ts| == 0 || sentry < Key(ts[0], compareGmt) {
      FoundAt(z, sentry, compareGmt, -1);
      local := z.localtimes[0];
    } else {
      var transI := LowerBound(ts, sentry, compareGmt);
      if transI < |ts| {
        if sentry != Key(ts[transI], compareGmt) {
          assert transI != 0;
          transI := transI - 1;
        } else {
          NextIsLater(ts, compareGmt, transI);
        }
        FoundAt(z, sentry, compareGmt, transI);
        local := z.localtimes[ts[transI].localtimeIdx];
      } else {
        FoundAt(z, sentry, compareGmt, |ts| - 1);
        local := z.localtimes[ts[|ts| - 1].localtimeIdx];
      }
    }
  }

  lemma NextIsLater(ts: seq<Transition>, compareGmt: bool, k: nat)
    requires Sorted(ts, compareGmt)
    ensures k + 1 < |ts| ==> Key(ts[k], compareGmt) < Key(ts[k + 1], compareGmt)
  {
  }

  /** The transition between the keys of its neighbours decides. */
  lemma FoundAt(z: Zone, x: int, compareGmt: bool, k: int)
    requires WellFormed(z) && Sorted(z.transitions, compareGmt) && -1 <= k < |z.transitions|
    requires k >= 0 ==> Key(z.transitions[k], compareGmt) <= x
    requires k + 1 < |z.transitions| ==> x < Key(z.transitions[k + 1], compareGmt)
    ensures k >= 0 ==> z.transitions[k].localtimeIdx < |z.localtimes|
    ensures InForce(z, Lookup(z.transitions, x, compareGmt))
         == z.localtimes[if k >= 0 then z.transitions[k].localtimeIdx else 0]
  {
    KeyBounds(z.transitions, x, compareGmt, k);
    LookupUnique(z.transitions, x, compareGmt, k);
    hide Sorted, Lookup, LastAtOrBefore;
    assert k >= 0 ==> z.transitions[k] in z.transitions;
  }

  // ---------- Local time ----------

  /** The local time type in force at instant `t`. */
  function LocalAt(z: Zone, t: int): Localtime
    requires WellFormed(z)
  {
    InForce(z, Lookup(z.transitions, t, true))
  }

  function LocalTm(z: Zone, t: int): Tm
    requires WellFormed(z)
  {
    var local := LocalAt(z, t);
    UtcTm(t + local.gmtOffset, true).(isDst := local.isDst, gmtOffset := local.gmtOffset)
  }

  function FromLocalTm(z: Zone, localTm: Tm): int
    requires WellFormed(z)
  {
    var seconds := FromUtcTm(localTm);
    var local := InForce(z, Lookup(z.transitions, seconds, false));
    var tryTm := LocalTm(z, seconds - local.gmtOffset);
    if localTm.isDst && !tryTm.isDst && tryTm.hour == localTm.hour && tryTm.min == localTm.min
    then seconds - 3600 - local.gmtOffset
    else seconds - local.gmtOffset
  }

  method ToLocalTime(z: Zone, seconds: int) returns (localTime: Tm)
    requires WellFormed(z)
    ensures localTime == LocalTm(z, seconds)
  {
    hide UtcTm, WellFormed, Lookup, InForce;
    GmtSorted(z);
    hide Sorted;
    var local := FindLocaltime(z, seconds, true);
    var localSeconds := seconds + local.gmtOffset;
    localTime := ToUtcTime(localSeconds, true);
    localTime := localTime.(isDst := local.isDst, gmtOffset := local.gmtOffset);
  }

  method FromLocalTime(z: Zone, localTm: Tm) returns (t: int)
    requires WellFormed(z) && Sorted(z.transitions, false)
    ensures t == FromLocalTm(z, localTm)
  {
    hide UtcTm, FromUtcTm, WellFormed, Sorted, Lookup, InForce;
    var seconds := FromUtcTm(localTm);
    var local := FindLocaltime(z, seconds, false);
    if localTm.isDst {
      var tryTm := ToLocalTime(z, seconds - local.gmtOffset);
      if !tryTm.isDst && tryTm.hour == localTm.hour && tryTm.min == localTm.min {
        seconds := seconds - 3600;
      }
    }
    t := seconds - local.gmtOffset;
  }

  // ---------- The local round trip ----------

  /** How far transition `k` sets local clocks back; 0 when it sets them forward. */
  function Drop(z: Zone, k: int): nat
    requires WellFormed(z) && 0 <= k < |z.transitions|
  {
    var d := InForce(z, k - 1).gmtOffset - InForce(z, k).gmtOffset;
    if d > 0 then d else 0
  }

  /** Neighbouring transitions are more than an hour apart, and farther apart than the clocks are set back at both. */
  predicate Separated(z: Zone)
    requires WellFormed(z)
  {
    forall k :: 0 < k < |z.transitions| ==>
      var gap := z.transitions[k].gmttime - z.transitions[k - 1].gmttime;
      gap > 3600 && gap > Drop(z, k - 1) + Drop(z, k)
  }

  /** Transition `k` ends daylight saving time and sets the clocks back by exactly one hour. */
  predicate EndsDst(z: Zone, k: int)
    requires WellFormed(z) && 0 <= k < |z.transitions|
  {
    InForce(z, k - 1).isDst && !InForce(z, k).isDst && Drop(z, k) == 3600
  }

  /** After transition `k` sets the clock back, the local time of `t` comes again. */
  predicate RepeatedBefore(z: Zone, t: int, k: int)
    requires WellFormed(z) && 0 <= k < |z.transitions|
  {
    z.transitions[k].gmttime - Drop(z, k) <= t < z.transitions[k].gmttime
  }

  /** Offsets in force are 32-bit. */
  lemma InForceInt32(z: Zone, k: int)
    requires WellFormed(z) && -1 <= k < |z.transitions|
    ensures InInt32(InForce(z, k).gmtOffset)
    ensures k >= 0 ==> z.transitions[k].localtime == z.transitions[k].gmttime + InForce(z, k).gmtOffset
  {
    assert k >= 0 ==> z.transitions[k] in z.transitions;
    assert InForce(z, k) in z.localtimes;
  }

  /** The gap before transition `k`, by both clocks. */
  lemma Gap(z: Zone, k: int)
    requires WellFormed(z) && Separated(z) && 0 < k < |z.transitions|
    ensures z.transitions[k].gmttime - z.transitions[k - 1].gmttime > Drop(z, k - 1) + Drop(z, k)
    ensures z.transitions[k - 1].localtime < z.transitions[k].localtime
    ensures z.transitions[k].localtime
         == z.transitions[k].gmttime + InForce(z, k).gmtOffset
         >= z.transitions[k].gmttime + InForce(z, k - 1).gmtOffset - Drop(z, k)
  {
    InForceInt32(z, k - 1);
    InForceInt32(z, k);
  }

  lemma {:induction false} LocalStrict(z: Zone, i: int, j: int)
    requires WellFormed(z) && Separated(z) && 0 <= i < j < |z.transitions|
    ensures z.transitions[i].localtime < z.transitions[j].localtime
    decreases j - i
  {
    Gap(z, j);
    if i < j - 1 {
      LocalStrict(z, i, j - 1);
    }
  }

  /** Separated transitions are in order by local time too, as the local lookup needs. */
  lemma LocalSorted(z: Zone)
    requires WellFormed(z) && Separated(z)
    ensures Sorted(z.transitions, false)
  {
    forall i, j | 0 <= i < j < |z.transitions| ensures z.transitions[i].localtime < z.transitions[j].localtime {
      LocalStrict(z, i, j);
    }
  }

  /** The lookup by local time finds the transition in force, or the next one inside its repeated interval. */
  lemma LookupByLocal(z: Zone, t: int)
    requires WellFormed(z) && Separated(z)
    ensures var n := |z.transitions|;
            var k := Lookup(z.transitions, t, true);
            var found := Lookup(z.transitions, t + InForce(z, k).gmtOffset, false);
            found == if k + 1 < n && RepeatedBefore(z, t, k + 1) then k + 1 else k
  {
    LocalSorted(z);
    GmtSorted(z);
    FoundByLocal(z, t, Lookup(z.transitions, t, true));
  }

  lemma FoundByLocal(z: Zone, t: int, k: int)
    requires WellFormed(z) && Separated(z) && Sorted(z.transitions, false)
    requires LastAtOrBefore(z.transitions, t, true, k)
    ensures Lookup(z.transitions, t + InForce(z, k).gmtOffset, false)
         == if k + 1 < |z.transitions| && RepeatedBefore(z, t, k + 1) then k + 1 else k
  {
    hide WellFormed, Separated, Lookup;
    var ts := z.transitions;
    var x := t + InForce(z, k).gmtOffset;
    assert k >= 0 ==> Key(ts[k], true) <= t;
    assert k + 1 < |ts| ==> t < Key(ts[k + 1], true);
    var found := if k + 1 < |ts| && RepeatedBefore(z, t, k + 1) then k + 1 else k;
    InForceInt32(z, k);
    if k + 1 < |ts| {
      InForceInt32(z, k + 1);
      if k + 2 < |ts| {
        Gap(z, k + 2);
      }
    }
    KeyBounds(ts, x, false, found);
    LookupUnique(ts, x, false, found);
  }

  lemma GmtSorted(z: Zone)
    requires WellFormed(z)
    ensures Sorted(z.transitions, true)
  {
  }

  /** In a sorted table the two neighbouring keys decide the lookup. */
  lemma KeyBounds(ts: seq<Transition>, x: int, compareGmt: bool, k: int)
    requires Sorted(ts, compareGmt) && -1 <= k < |ts|
    requires k >= 0 ==> Key(ts[k], compareGmt) <= x
    requires k + 1 < |ts| ==> x < Key(ts[k + 1], compareGmt)
    ensures LastAtOrBefore(ts, x, compareGmt, k)
  {
    forall j | 0 <= j <= k ensures Key(ts[j], compareGmt) <= x {
      assert j < k ==> Key(ts[j], compareGmt) < Key(ts[k], compareGmt);
    }
    forall j | k < j < |ts| ensures x < Key(ts[j], compareGmt) {
      assert k + 1 < j ==> Key(ts[k + 1], compareGmt) < Key(ts[j], compareGmt);
    }
  }

  /** Instants set forward by the drop at their next transition are past it, and before the one after. */
  lemma LookupAfterDrop(z: Zone, t: int)
    requires WellFormed(z) && Separated(z)
    requires var k := Lookup(z.transitions, t, true) + 1; k < |z.transitions| && RepeatedBefore(z, t, k)
    ensures var k := Lookup(z.transitions, t, true) + 1;
            Lookup(z.transitions, t + Drop(z, k), true) == k
  {
    hide WellFormed, Separated, Sorted, Drop;
    var ts := z.transitions;
    GmtSorted(z);
    var k := Lookup(ts, t, true) + 1;
    var x := t + Drop(z, k);
    if k + 1 < |ts| {
      Gap(z, k + 1);
    }
    KeyBounds(ts, x, true, k);
    LookupUnique(ts, x, true, k);
  }

  /** The local time of `t` is in the era of the calendar formula. */
  predicate Representable(z: Zone, t: int)
    requires WellFormed(z)
  {
    t + LocalAt(z, t).gmtOffset >= FIRST_SECOND
  }

  /**
   At each instant: the local round trip returns it, unless its local time comes again after the
   next transition and that transition is not the end of daylight saving time by one hour.
   */
  lemma LocalRoundTripAt(z: Zone, t: int)
    requires WellFormed(z) && Separated(z) && Representable(z, t)
    ensures FromLocalTm(z, LocalTm(z, t)) == t
       <==> var k := Lookup(z.transitions, t, true) + 1;
            k < |z.transitions| && RepeatedBefore(z, t, k) ==> EndsDst(z, k)
  {
    hide UtcTm, FromUtcTm, WellFormed, Separated, Lookup;
    var ts := z.transitions;
    var k := Lookup(ts, t, true);
    var local := InForce(z, k);
    var x := t + local.gmtOffset;
    UtcRoundTrip(x, true);
    SameFields(UtcTm(x, true), LocalTm(z, t));
    LookupByLocal(z, t);
    if k + 1 < |ts| && RepeatedBefore(z, t, k + 1) {
      LookupAfterDrop(z, t);
      assert x - InForce(z, k + 1).gmtOffset == t + Drop(z, k + 1);
      assert LocalAt(z, t + Drop(z, k + 1)) == InForce(z, k + 1);
    } else {
      assert x - InForce(z, k).gmtOffset == t;
    }
  }

  lemma SameFields(a: Tm, b: Tm)
    requires b == a.(isDst := b.isDst, gmtOffset := b.gmtOffset)
    ensures FromUtcTm(a) == FromUtcTm(b)
  {
  }

  /**
   A zone's local times convert back to the instants they came from, all of them, exactly when
   every transition that sets the clocks back ends daylight saving time by one hour.
   */
  lemma LocalRoundTrip(z: Zone)
    requires WellFormed(z) && Separated(z)
    ensures (forall t :: Representable(z, t) ==> FromLocalTm(z, LocalTm(z, t)) == t)
       <==> (forall k :: 0 <= k < |z.transitions| && Drop(z, k) > 0 ==> EndsDst(z, k))
  {
    hide FromLocalTm, LocalTm, Lookup, InForce, Drop, Separated, EndsDst;
    if forall k :: 0 <= k < |z.transitions| && Drop(z, k) > 0 ==> EndsDst(z, k) {
      forall t | Representable(z, t) ensures FromLocalTm(z, LocalTm(z, t)) == t {
        LocalRoundTripAt(z, t);
      }
    } else {
      var k :| 0 <= k < |z.transitions| && Drop(z, k) > 0 && !EndsDst(z, k);
      JustBefore(z, k);
      LocalRoundTripAt(z, z.transitions[k].gmttime - 1);
      assert FromLocalTm(z, LocalTm(z, z.transitions[k].gmttime - 1)) != z.transitions[k].gmttime - 1;
    }
  }

  /** The last instant before a transition that sets the clocks back comes again. */
  lemma JustBefore(z: Zone, k: int)
    requires WellFormed(z) && 0 <= k < |z.transitions| && Drop(z, k) > 0
    ensures var t := z.transitions[k].gmttime - 1;
            Lookup(z.transitions, t, true) == k - 1 && RepeatedBefore(z, t, k) && Representable(z, t)
  {
    LookupJustBefore(z, k);
    InForceInt32(z, k - 1);
    assert z.transitions[k] in z.transitions;
    hide Lookup, InForce, Drop;
  }

  lemma LookupJustBefore(z: Zone, k: int)
    requires WellFormed(z) && 0 <= k < |z.transitions|
    ensures Lookup(z.transitions, z.transitions[k].gmttime - 1, true) == k - 1
  {
    var ts := z.transitions;
    var t := ts[k].gmttime - 1;
    assert k > 0 ==> Key(ts[k - 1], true) < Key(ts[k], true);
    KeyBounds(ts, t, true, k - 1);
    LookupUnique(ts, t, true, k - 1);
  }

  /** A zone that ends daylight saving by half an hour, as Lord Howe Island does, loses instants. */
  lemma HalfHourDstFails()
    ensures var z := Zone([Transition(1000000, 1037800, 1)], [Localtime(39600, true), Localtime(37800, false)]);
            WellFormed(z) && Separated(z) && FromLocalTm(z, LocalTm(z, 999999)) != 999999
  {
    hide FromLocalTm, LocalTm;
    var z := Zone([Transition(1000000, 1037800, 1)], [Localtime(39600, true), Localtime(37800, false)]);
    LookupJustBefore(z, 0);
    LocalRoundTripAt(z, 999999);
  }

  // ---------- Any local time, whatever its flag ----------

  /** What `localTm` says apart from its flag and offset. */
  predicate SameClock(a: Tm, b: Tm) {
    && (a.sec, a.min, a.hour) == (b.sec, b.min, b.hour)
    && (a.mday, a.mon, a.year) == (b.mday, b.mon, b.year)
  }

  /** A local time carries the type that the last transition at or before it put in force. */
  lemma LocalTmFields(z: Zone, t: int, k: int)
    requires WellFormed(z) && LastAtOrBefore(z.transitions, t, true, k) && Representable(z, t)
    ensures k >= 0 ==> z.transitions[k].localtimeIdx < |z.localtimes|
    ensures var local := z.localtimes[if k < 0 then 0 else z.transitions[k].localtimeIdx];
            var tm := LocalTm(z, t);
            && FromUtcTm(tm) == t + local.gmtOffset && SameClock(tm, UtcTm(t + local.gmtOffset, true))
            && tm.isDst == local.isDst && tm.gmtOffset == local.gmtOffset
  {
    hide UtcTm, FromUtcTm, Lookup, InForce;
    LocalAtIs(z, t, k);
    hide LastAtOrBefore;
    var local := z.localtimes[if k < 0 then 0 else z.transitions[k].localtimeIdx];
    hide LocalAt, WellFormed;
    UtcRoundTrip(t + local.gmtOffset, true);
    SameFields(UtcTm(t + local.gmtOffset, true), LocalTm(z, t));
  }

  lemma LocalAtIs(z: Zone, t: int, k: int)
    requires WellFormed(z) && LastAtOrBefore(z.transitions, t, true, k)
    ensures -1 <= k < |z.transitions| && (k >= 0 ==> z.transitions[k].localtimeIdx < |z.localtimes|)
    ensures LocalAt(z, t) == z.localtimes[if k < 0 then 0 else z.transitions[k].localtimeIdx]
  {
    LookupUnique(z.transitions, t, true, k);
    hide Lookup;
    assert k >= 0 ==> z.transitions[k] in z.transitions;
  }

  lemma SameClockSeconds(a: Tm, b: Tm)
    requires SameClock(a, b)
    ensures FromUtcTm(a) == FromUtcTm(b)
  {
  }

  /**
   A local time that occurs, first at `t`: it converts to `t`, or to when it occurs again, after the
   transition that repeats it; and to an hour before that exactly when it claims daylight saving time
   where there is none.
   */
  lemma FromLocalAnyFlag(z: Zone, localTm: Tm, t: int)
    requires WellFormed(z) && Separated(z) && Representable(z, t) && SameClock(localTm, LocalTm(z, t))
    ensures var k := Lookup(z.transitions, t, true) + 1;
            FromLocalTm(z, localTm) ==
            if k < |z.transitions| && RepeatedBefore(z, t, k) then
              t + Drop(z, k) - (if localTm.isDst && !InForce(z, k).isDst then 3600 else 0)
            else
              t - (if localTm.isDst && !LocalAt(z, t).isDst then 3600 else 0)
  {
    hide UtcTm, FromUtcTm, WellFormed, Separated, Lookup;
    var ts := z.transitions;
    var k := Lookup(ts, t, true);
    var x := t + InForce(z, k).gmtOffset;
    UtcRoundTrip(x, true);
    SameFields(UtcTm(x, true), LocalTm(z, t));
    SameClockSeconds(localTm, LocalTm(z, t));
    LookupByLocal(z, t);
    if k + 1 < |ts| && RepeatedBefore(z, t, k + 1) {
      LookupAfterDrop(z, t);
      assert x - InForce(z, k + 1).gmtOffset == t + Drop(z, k + 1);
      assert LocalAt(z, t + Drop(z, k + 1)) == InForce(z, k + 1);
    } else {
      assert x - InForce(z, k).gmtOffset == t;
    }
  }

  /** Local time `x` is skipped when transition `j` sets the clocks forward. */
  predicate SkippedBy(z: Zone, x: int, j: int)
    requires WellFormed(z) && 0 <= j < |z.transitions|
  {
    z.transitions[j].gmttime + InForce(z, j - 1).gmtOffset <= x < z.transitions[j].gmttime + InForce(z, j).gmtOffset
  }

  /**
   A local time that does not occur is taken by the offset before the gap: it converts to an instant as
   far past the transition as the local time is into the gap, without the flag's correction unless the
   gap is whole days, give or take a minute, or reaches the transition after.
   */
  lemma FromSkippedLocal(z: Zone, localTm: Tm, x: int, j: int)
    requires WellFormed(z) && Separated(z) && 0 <= j < |z.transitions| && SkippedBy(z, x, j)
    requires x >= FIRST_SECOND && SameClock(localTm, UtcTm(x, true))
    ensures var t := x - InForce(z, j - 1).gmtOffset;
            && t >= z.transitions[j].gmttime
            && (FromLocalTm(z, localTm) == t || (localTm.isDst && FromLocalTm(z, localTm) == t - 3600))
            && (WholeJump(z, j) && (j + 1 == |z.transitions| || t < z.transitions[j + 1].gmttime) ==>
                  FromLocalTm(z, localTm) == t)
  {
    hide UtcTm, FromUtcTm, WellFormed, Separated, Lookup, LocalAt, WholeJump;
    SkippedLookup(z, x, j);
    UtcRoundTrip(x, true);
    SameClockSeconds(localTm, UtcTm(x, true));
    var t := x - InForce(z, j - 1).gmtOffset;
    if WholeJump(z, j) && (j + 1 == |z.transitions| || t < z.transitions[j + 1].gmttime) {
      OtherClock(z, x, j);
    }
  }

  /** The clocks are set forward by a minute or more, and not to a minute around the same time of another day. */
  predicate WholeJump(z: Zone, j: int)
    requires WellFormed(z) && 0 <= j < |z.transitions|
  {
    60 <= (InForce(z, j).gmtOffset - InForce(z, j - 1).gmtOffset) % SECONDS_PER_DAY <= SECONDS_PER_DAY - 60
  }

  lemma OtherClock(z: Zone, x: int, j: int)
    requires WellFormed(z) && 0 <= j < |z.transitions| && SkippedBy(z, x, j) && WholeJump(z, j)
    requires var t := x - InForce(z, j - 1).gmtOffset; j + 1 == |z.transitions| || t < z.transitions[j + 1].gmttime
    ensures var tm := LocalTm(z, x - InForce(z, j - 1).gmtOffset);
            tm.hour != UtcTm(x, true).hour || tm.min != UtcTm(x, true).min
  {
    hide UtcTm, WellFormed, Lookup, LocalAt;
    var t := x - InForce(z, j - 1).gmtOffset;
    var jump := InForce(z, j).gmtOffset - InForce(z, j - 1).gmtOffset;
    InForceAt(z, t, j);
    OtherMinute(x, jump);
    assert t + InForce(z, j).gmtOffset == x + jump;
    hide InForce;
  }

  lemma SkippedLookup(z: Zone, x: int, j: int)
    requires WellFormed(z) && Separated(z) && 0 <= j < |z.transitions| && SkippedBy(z, x, j)
    ensures Lookup(z.transitions, x, false) == j - 1
  {
    LocalSorted(z);
    InForceInt32(z, j);
    InForceInt32(z, j - 1);
    if j > 0 {
      NextIsLater(z.transitions, true, j - 1);
    }
    hide InForce, Separated, Sorted, WellFormed, Lookup;
    KeyBounds(z.transitions, x, false, j - 1);
    LookupUnique(z.transitions, x, false, j - 1);
  }

  lemma InForceAt(z: Zone, t: int, j: int)
    requires WellFormed(z) && 0 <= j < |z.transitions| && z.transitions[j].gmttime <= t
    requires j + 1 == |z.transitions| || t < z.transitions[j + 1].gmttime
    ensures LocalAt(z, t) == InForce(z, j)
  {
    KeyBounds(z.transitions, t, true, j);
    LookupUnique(z.transitions, t, true, j);
    hide WellFormed, InForce, Lookup;
  }

  /** Times of day a minute or more apart differ in hour or minute. */
  lemma OtherMinute(x: int, jump: int)
    requires 60 <= jump % SECONDS_PER_DAY <= SECONDS_PER_DAY - 60
    ensures var a, b := UtcTm(x, true), UtcTm(x + jump, true); a.hour != b.hour || a.min != b.min
  {
    hide UtcTm;
    DayShift(x, jump);
    ClockOf(x);
    ClockOf(x + jump);
  }

  lemma ClockOf(x: int)
    ensures var s, tm := x % SECONDS_PER_DAY, UtcTm(x, true);
            60 * (60 * tm.hour + tm.min) <= s < 60 * (60 * tm.hour + tm.min) + 60
  {
    hide Dates.FromJulianDay, Dates.WeekDay, Dates.JulianDayNumber;
    HourAndMinute(x % SECONDS_PER_DAY);
  }

  lemma DayShift(x: int, jump: int)
    ensures var s, u, r := x % SECONDS_PER_DAY, (x + jump) % SECONDS_PER_DAY, jump % SECONDS_PER_DAY;
            u == s + r || u == s + r - SECONDS_PER_DAY
  {
    var days := x / SECONDS_PER_DAY + jump / SECONDS_PER_DAY;
    var y := x % SECONDS_PER_DAY + jump % SECONDS_PER_DAY;
    WholeDays(y, days);
  }

  lemma WholeDays(y: int, days: int)
    ensures (y + SECONDS_PER_DAY * days) % SECONDS_PER_DAY == y % SECONDS_PER_DAY
  {
    assert y + SECONDS_PER_DAY * days == (y / SECONDS_PER_DAY + days) * SECONDS_PER_DAY + y % SECONDS_PER_DAY;
  }

  lemma HourAndMinute(s: nat)
    ensures 60 * (60 * (s / 3600) + s / 60 % 60) <= s < 60 * (60 * (s / 3600) + s / 60 % 60) + 60
  {
    HoursMinutesSecondsOf(s);
  }

  /** Where the calendar era begins. */
  lemma FirstSecond()
    ensures FIRST_SECOND == (-32044 - 2440588) * 86400
  {
  }
}
