/** The `Appointment` record (one bookable slot at a vaccination site, a "UBS")
    with its predicate methods and its query scopes. A scope is modelled as a
    condition on one appointment plus a filter over the appointments in memory,
    and the clock (`Time.current`) is an explicit `now`. */
module Appointments {
  import opened Collections
  import opened Calendar

  /** A vaccination site. `active` and `enabled_for_reschedule` are nullable
      columns; a SQL `= true` condition matches only a stored `true`. */
  datatype Ubs = Ubs(id: int, active: Option<bool>, enabledForReschedule: Option<bool>)

  /** One slot: its time range, its site, the patient holding it (nil when
      nobody does), the nullable `active` column, the check-out time (nil until
      the patient checks out) and whether it is reserved for a follow-up dose
      (a nil column reads as false). */
  datatype Appointment = Appointment(
    start: int,
    end: int,
    ubs: Ubs,
    patientId: Option<int>,
    active: Option<bool>,
    checkOut: Option<int>,
    followUpForDose: bool)

  /** `SLOTS_WINDOW_IN_DAYS`: the environment variable converted with `to_i`
      when it is set (Ruby treats 0 as true, so a set value is always used),
      7 when it is not. */
  function SlotsWindowInDays(env: Option<int>): (days: int)
    ensures env.None? ==> days == 7
    ensures env.Some? ==> days == env.value
  {
    match env
    case Some(n) => n
    case None => 7
  }

  // ---------------------------------------------------------------------------
  // Conditions on a single appointment

  /** `active?`: only a stored `true` counts; nil and false do not. */
  predicate IsActive(a: Appointment) {
    a.active == Some(true)
  }

  /** `in_allowed_check_in_window?`: the start lies strictly after the
      beginning of the current day and strictly before its end. */
  predicate InAllowedCheckInWindow(a: Appointment, now: int) {
    BeginningOfDay(DayOf(now)) < a.start && NotAfterEndOfDay(a.start, DayOf(now))
  }

  /** The condition of `free`: the site is active and no patient holds the slot. */
  predicate IsFree(a: Appointment) {
    a.ubs.active == Some(true) && a.patientId.None?
  }

  /** The condition of `without_checkout`. */
  predicate HasNoCheckout(a: Appointment) {
    a.checkOut.None?
  }

  /** The condition of `today`: `date(start)` is the current date. */
  predicate StartsToday(a: Appointment, now: int) {
    DayOf(a.start) == DayOf(now)
  }

  /** The condition of `active_from_day(day)`: starts at or after the day's
      beginning and ends no later than its end. */
  predicate LiesWithinDay(a: Appointment, day: int) {
    a.start >= BeginningOfDay(day) && NotAfterEndOfDay(a.end, day)
  }

  /** The condition of `futures`: starts strictly after now. */
  predicate StartsAfter(a: Appointment, now: int) {
    a.start > now
  }

  /** The condition of `within_allowed_window`: `start` in the inclusive range
      from now to the end of the day `windowDays` days from now. */
  predicate InAllowedWindow(a: Appointment, now: int, windowDays: int) {
    now <= a.start && NotAfterEndOfDay(a.start, DayOf(DaysFrom(now, windowDays)))
  }

  // ---------------------------------------------------------------------------
  // Scopes

  /** `Appointment.free`. */
  function Free(slots: seq<Appointment>): (r: seq<Appointment>)
    ensures forall a :: a in r <==> a in slots && a.ubs.active == Some(true) && a.patientId.None?
    ensures forall a :: multiset(r)[a] == if IsFree(a) then multiset(slots)[a] else 0
  {
    KeepMultiplicity(slots, IsFree);
    Keep(slots, IsFree)
  }

  /** `Appointment.without_checkout`. */
  function WithoutCheckout(slots: seq<Appointment>): (r: seq<Appointment>)
    ensures forall a :: a in r <==> a in slots && a.checkOut.None?
    ensures forall a :: multiset(r)[a] == if HasNoCheckout(a) then multiset(slots)[a] else 0
  {
    KeepMultiplicity(slots, HasNoCheckout);
    Keep(slots, HasNoCheckout)
  }

  /** `Appointment.today`, as whole-day bounds on the start. */
  function Today(slots: seq<Appointment>, now: int): (r: seq<Appointment>)
    ensures forall a :: a in r <==>
      a in slots && BeginningOfDay(DayOf(now)) <= a.start < BeginningOfDay(DayOf(now) + 1)
    ensures forall a :: multiset(r)[a] == if StartsToday(a, now) then multiset(slots)[a] else 0
  {
    forall a ensures StartsToday(a, now) <==>
      BeginningOfDay(DayOf(now)) <= a.start < BeginningOfDay(DayOf(now) + 1)
    {
      DayOfCharacterized(a.start, DayOf(now));
    }
    KeepMultiplicity(slots, a => StartsToday(a, now));
    Keep(slots, a => StartsToday(a, now))
  }

  /** `Appointment.active_from_day(day)`. */
  function ActiveFromDay(slots: seq<Appointment>, day: int): (r: seq<Appointment>)
    ensures forall a :: a in r <==>
      a in slots && BeginningOfDay(day) <= a.start && a.end < BeginningOfDay(day + 1)
    ensures forall a :: multiset(r)[a] == if LiesWithinDay(a, day) then multiset(slots)[a] else 0
  {
    KeepMultiplicity(slots, a => LiesWithinDay(a, day));
    Keep(slots, a => LiesWithinDay(a, day))
  }

  /** `Appointment.futures`: a slot starting exactly now is not a future one. */
  function Futures(slots: seq<Appointment>, now: int): (r: seq<Appointment>)
    ensures forall a :: a in r <==> a in slots && a.start > now
    ensures forall a :: multiset(r)[a] == if StartsAfter(a, now) then multiset(slots)[a] else 0
  {
    KeepMultiplicity(slots, a => StartsAfter(a, now));
    Keep(slots, a => StartsAfter(a, now))
  }

  /** `Appointment.within_allowed_window`, as a bound on whole days: the start
      is no earlier than now and before the midnight that ends the day
      `windowDays` days from today. */
  function WithinAllowedWindow(slots: seq<Appointment>, now: int, windowDays: int): (r: seq<Appointment>)
    ensures forall a :: a in r <==>
      a in slots && now <= a.start < BeginningOfDay(DayOf(now) + windowDays + 1)
    ensures forall a :: multiset(r)[a] == (if InAllowedWindow(a, now, windowDays) then multiset(slots)[a] else 0)
  {
    DayOfDaysFrom(now, windowDays);
    KeepMultiplicity(slots, a => InAllowedWindow(a, now, windowDays));
    Keep(slots, a => InAllowedWindow(a, now, windowDays))
  }

  // ---------------------------------------------------------------------------
  // Properties relating the conditions

  /** `active?` compares with `true`: a nil `active` column is not active. */
  lemma ActiveOnlyWhenTrue(a: Appointment)
    ensures IsActive(a) <==> a.active.Some? && a.active.value
    ensures a.active.None? ==> !IsActive(a)
  {
  }

  /** The check-in window is today minus its first instant: a slot that starts
      exactly at midnight is not in it, though it starts today. */
  lemma CheckInWindowIsTodayAfterMidnight(a: Appointment, now: int)
    ensures InAllowedCheckInWindow(a, now) <==>
      StartsToday(a, now) && a.start != BeginningOfDay(DayOf(now))
  {
  }

  /** A well-formed slot kept by `active_from_day(day)` starts on that day. */
  lemma WithinDayStartsThatDay(a: Appointment, day: int)
    requires a.start <= a.end
    requires LiesWithinDay(a, day)
    ensures DayOf(a.start) == day
  {
  }

  /** The allowed window holds every slot from now to the end of today (for a
      non-negative window), and apart from a slot starting exactly now it only
      holds future slots. */
  lemma AllowedWindowCoversRestOfToday(a: Appointment, now: int, windowDays: int)
    ensures windowDays >= 0 && StartsToday(a, now) && now <= a.start ==> InAllowedWindow(a, now, windowDays)
    ensures InAllowedWindow(a, now, windowDays) && a.start != now ==> StartsAfter(a, now)
  {
  }

  /** Chained scopes are a conjunction: `free.futures` keeps the same slots in
      the same order as `futures.free`, and as one filter by both conditions. */
  lemma FreeFuturesCommute(slots: seq<Appointment>, now: int)
    ensures Futures(Free(slots), now) == Free(Futures(slots, now))
    ensures Futures(Free(slots), now) == Keep(slots, Both(IsFree, a => StartsAfter(a, now)))
  {
    KeepCommutes(slots, IsFree, a => StartsAfter(a, now));
    KeepKeep(slots, IsFree, a => StartsAfter(a, now));
  }
}
