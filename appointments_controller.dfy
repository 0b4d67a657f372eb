/** The decision logic of `Community::AppointmentsController`: who may cancel
    or reschedule, which site a booking request names, which sites a patient may
    see, which page of days the index shows, which flash message a scheduling
    result produces and what the home page shows.

    The scheduler (`AppointmentScheduler`) is an outside collaborator: its
    answers are parameters here. Request parameters arrive already converted
    with Ruby's `to_i` (a missing parameter is `None`), the configuration that
    Rails reads from `Rails.configuration.x` is a `Config` value and the clock
    is `now`. Flash messages are modelled by kind, not by their text. */
module CommunityAppointments {
  import opened Collections
  import opened Calendar
  import opened Appointments

  /** `schedule_from_hours`, `schedule_up_to_days` and the scheduler's
      `ROUNDING` tolerance, in seconds. */
  datatype Config = Config(scheduleFromHours: int, scheduleUpToDays: int, rounding: int)

  /** An eligibility condition lists the sites it grants. */
  datatype Condition = Condition(ubsIds: seq<int>)

  /** What the controller asks of `current_patient`. `current` is
      `appointments.current` and `currentNotCheckedOut` is
      `appointments.not_checked_out.current`. */
  datatype Patient = Patient(
    forceUserUpdate: bool,
    vaccinated: bool,
    hasDoses: bool,
    gotRescheduleCondition: bool,
    canSchedule: bool,
    conditions: seq<Condition>,
    current: Option<Appointment>,
    currentNotCheckedOut: Option<Appointment>)

  /** `AppointmentScheduler::CONDITIONS_UNMET`, `NO_SLOTS`, `SUCCESS`, or any
      other value the scheduler might return. */
  datatype ResultCode = ConditionsUnmet | NoSlots | Success | Unexpected(code: int)

  datatype AlertKind = NotInSchedulingGroups | SlotUnavailable | CannotCancelOrReschedule
  datatype NoticeKind = Scheduled | ScheduledAtAnotherTime
  datatype Flash = Alert(alert: AlertKind) | Notice(notice: NoticeKind)

  /** An exception that escapes the action: `raise "Unexpected result"`, or
      `start` called on a nil appointment. */
  datatype Raised = UnexpectedResult(code: int) | NilAppointment

  datatype Result<+T> = Ok(value: T) | Err(error: Raised)

  // ---------------------------------------------------------------------------
  // can_cancel_and_reschedule?

  /** `can_cancel_and_reschedule?`: a patient with doses needs the reschedule
      condition; a patient without doses is refused only while a follow-up
      slot they hold has not started yet. */
  function CanCancelAndReschedule(p: Patient, now: int): (ok: bool)
    ensures p.hasDoses ==> (ok <==> p.gotRescheduleCondition)
    ensures !p.hasDoses ==> (!ok <==>
      p.currentNotCheckedOut.Some? &&
      p.currentNotCheckedOut.value.followUpForDose &&
      now < p.currentNotCheckedOut.value.start)
  {
    if p.hasDoses then
      p.gotRescheduleCondition
    else
      match p.currentNotCheckedOut
      case Some(a) => !(a.followUpForDose && now < a.start)
      case None => true
  }

  /** A patient without doses and without a pending slot may always cancel or
      reschedule, and so may one whose follow-up slot has already started. */
  lemma UndosedRefusedOnlyBeforeFollowUp(p: Patient, now: int)
    requires !p.hasDoses
    ensures p.currentNotCheckedOut.None? ==> CanCancelAndReschedule(p, now)
    ensures p.currentNotCheckedOut.Some? && p.currentNotCheckedOut.value.start <= now ==>
      CanCancelAndReschedule(p, now)
    ensures p.currentNotCheckedOut.Some? && !p.currentNotCheckedOut.value.followUpForDose ==>
      CanCancelAndReschedule(p, now)
  {
  }

  // ---------------------------------------------------------------------------
  // parse_days

  function Max(a: int, b: int): int { if a < b then b else a }
  function Min(a: int, b: int): int { if a < b then a else b }

  /** `parse_days`: `[[0, page || days_ahead].compact.max, up_to].min`. The
      page is used whenever it is given (`to_i` never yields nil); only
      without a page is the scheduler's `days_ahead_with_open_slot` used. */
  function ParseDays(page: Option<int>, daysAhead: Option<int>, upToDays: int): (days: int)
    ensures upToDays >= 0 ==> 0 <= days <= upToDays
    ensures days <= upToDays
    ensures page.Some? && 0 <= page.value <= upToDays ==> days == page.value
    ensures page.Some? && page.value < 0 ==> days == Min(0, upToDays)
    ensures page.Some? && page.value > upToDays ==> days == upToDays
    ensures page.None? && daysAhead.Some? && 0 <= daysAhead.value <= upToDays ==> days == daysAhead.value
    ensures page.None? && daysAhead.Some? && daysAhead.value > upToDays ==> days == upToDays
    ensures page.None? && (daysAhead.None? || daysAhead.value < 0) ==> days == Min(0, upToDays)
  {
    var asked := if page.Some? then page else daysAhead;
    var compacted := [0] + (if asked.Some? then [asked.value] else []);
    var atLeastZero := if |compacted| == 2 then Max(compacted[0], compacted[1]) else compacted[0];
    Min(atLeastZero, upToDays)
  }

  /** With a page given, the scheduler's answer does not matter. */
  lemma ParseDaysIgnoresSchedulerWithPage(page: int, a: Option<int>, b: Option<int>, upToDays: int)
    ensures ParseDays(Some(page), a, upToDays) == ParseDays(Some(page), b, upToDays)
  {
  }

  // ---------------------------------------------------------------------------
  // success_message and message_for

  function Abs(x: int): int { if x < 0 then -x else x }

  /** `success_message`: the booked time is reported as changed when a time
      was asked for and the booked start differs from it by more than the
      rounding tolerance. */
  function SuccessMessage(desired: Option<int>, scheduled: int, rounding: int): (kind: NoticeKind)
    ensures kind == ScheduledAtAnotherTime <==>
      desired.Some? && (desired.value < scheduled - rounding || desired.value > scheduled + rounding)
  {
    if desired.Some? && Abs(desired.value - scheduled) > rounding then ScheduledAtAnotherTime
    else Scheduled
  }

  /** The comparison is strict: a difference of exactly the tolerance, in
      either direction, is still reported as the time asked for. */
  lemma ToleranceBoundaryIsPlainSuccess(desired: int, scheduled: int, rounding: int)
    requires Abs(desired - scheduled) == rounding
    ensures SuccessMessage(Some(desired), scheduled, rounding) == Scheduled
  {
  }

  /** `message_for`: the scheduler's result code to a flash message; any other
      code raises, and so does a success without an appointment. */
  function MessageFor(result: ResultCode, appointment: Option<Appointment>, desired: Option<int>, rounding: int): (r: Result<Flash>)
    ensures result == ConditionsUnmet ==> r == Ok(Alert(NotInSchedulingGroups))
    ensures result == NoSlots ==> r == Ok(Alert(SlotUnavailable))
    ensures result == Success && appointment.Some? ==>
      r.Ok? && r.value.Notice? &&
      (r.value.notice == ScheduledAtAnotherTime <==>
        desired.Some? && Abs(desired.value - appointment.value.start) > rounding)
    ensures r.Err? <==> result.Unexpected? || (result == Success && appointment.None?)
  {
    match result
    case ConditionsUnmet => Ok(Alert(NotInSchedulingGroups))
    case NoSlots => Ok(Alert(SlotUnavailable))
    case Success =>
      (match appointment
       case Some(a) => Ok(Notice(SuccessMessage(desired, a.start, rounding)))
       case None => Err(NilAppointment))
    case Unexpected(code) => Err(UnexpectedResult(code))
  }

  /** Alerts come exactly from the two failure codes, notices exactly from success. */
  lemma MessageKindsByResult(result: ResultCode, appointment: Option<Appointment>, desired: Option<int>, rounding: int)
    requires MessageFor(result, appointment, desired, rounding).Ok?
    ensures MessageFor(result, appointment, desired, rounding).value.Alert? <==>
      result == ConditionsUnmet || result == NoSlots
    ensures MessageFor(result, appointment, desired, rounding).value.Notice? <==> result == Success
  {
  }

  // ---------------------------------------------------------------------------
  // allowed_ubs_ids

  function UbsIds(sites: seq<Ubs>): (ids: seq<int>)
    ensures |ids| == |sites|
    ensures forall i :: 0 <= i < |sites| ==> ids[i] == sites[i].id
  {
    if sites == [] then [] else [sites[0].id] + UbsIds(sites[1..])
  }

  predicate EnabledForReschedule(u: Ubs) {
    u.enabledForReschedule == Some(true)
  }

  /** `allowed_ubs_ids`: with doses, the ids of the sites enabled for
      reschedule (`sites` is the `Ubs` table); without, the duplicate-free
      union of the sites the patient's conditions grant. */
  function AllowedUbsIds(p: Patient, sites: seq<Ubs>): (ids: seq<int>)
    ensures p.hasDoses ==> forall x :: x in ids <==>
      exists u :: u in sites && u.id == x && u.enabledForReschedule == Some(true)
    ensures !p.hasDoses ==> NoDuplicates(ids)
    ensures !p.hasDoses ==> forall x :: x in ids <==>
      exists i :: 0 <= i < |p.conditions| && x in p.conditions[i].ubsIds
  {
    if p.hasDoses then
      var enabled := Keep(sites, EnabledForReschedule);
      var ids := UbsIds(enabled);
      assert forall x :: x in ids <==> exists u :: u in enabled && u.id == x by {
        forall x ensures x in ids <==> exists u :: u in enabled && u.id == x {
          if x in ids {
            var i :| 0 <= i < |ids| && ids[i] == x;
            assert enabled[i] in enabled;
          }
        }
      }
      ids
    else
      Uniq(Flatten(GrantedSites(p.conditions)))
  }

  /** `conditions.map(&:ubs_ids)`: the site list of each condition, in order. */
  function GrantedSites(conditions: seq<Condition>): (lists: seq<seq<int>>)
    ensures |lists| == |conditions|
    ensures forall i :: 0 <= i < |conditions| ==> lists[i] == conditions[i].ubsIds
  {
    seq(|conditions|, i requires 0 <= i < |conditions| => conditions[i].ubsIds)
  }

  /** Without doses, when the conditions' site lists together name every site
      once, `uniq` drops nothing: the allowed ids are those lists concatenated
      in the order of the conditions. */
  lemma AllowedUbsIdsInConditionOrder(p: Patient, sites: seq<Ubs>)
    requires !p.hasDoses
    requires NoDuplicates(Flatten(GrantedSites(p.conditions)))
    ensures AllowedUbsIds(p, sites) == Flatten(GrantedSites(p.conditions))
  {
    UniqOfDistinct(Flatten(GrantedSites(p.conditions)));
  }

  /** When the `Ubs` table has distinct ids, the reschedule list of a patient
      with doses names each site once. */
  lemma {:induction false} AllowedUbsIdsDistinctWithDoses(p: Patient, sites: seq<Ubs>)
    requires p.hasDoses
    requires NoDuplicates(UbsIds(sites))
    ensures NoDuplicates(AllowedUbsIds(p, sites))
  {
    DistinctIdsKeep(sites);
  }

  lemma {:induction false} DistinctIdsKeep(sites: seq<Ubs>)
    requires NoDuplicates(UbsIds(sites))
    ensures NoDuplicates(UbsIds(Keep(sites, EnabledForReschedule)))
  {
    if sites != [] {
      var rest := sites[1..];
      assert UbsIds(sites) == [sites[0].id] + UbsIds(rest);
      assert NoDuplicates(UbsIds(rest)) by {
        forall i, j | 0 <= i < j < |rest| ensures UbsIds(rest)[i] != UbsIds(rest)[j] {
          assert UbsIds(rest)[i] == UbsIds(sites)[i + 1];
          assert UbsIds(rest)[j] == UbsIds(sites)[j + 1];
        }
      }
      DistinctIdsKeep(rest);
      if EnabledForReschedule(sites[0]) {
        var kept := Keep(rest, EnabledForReschedule);
        assert Keep(sites, EnabledForReschedule) == [sites[0]] + kept;
        assert UbsIds([sites[0]] + kept) == [sites[0].id] + UbsIds(kept);
        forall m | 0 <= m < |rest| ensures rest[m].id != sites[0].id {
          assert UbsIds(sites)[m + 1] == rest[m].id;
        }
        KeptSitesAvoidId(rest, sites[0].id);
      }
    }
  }

  lemma KeptSitesAvoidId(rest: seq<Ubs>, id: int)
    requires forall m :: 0 <= m < |rest| ==> rest[m].id != id
    ensures forall k :: 0 <= k < |UbsIds(Keep(rest, EnabledForReschedule))| ==>
      UbsIds(Keep(rest, EnabledForReschedule))[k] != id
  {
    var kept := Keep(rest, EnabledForReschedule);
    forall k | 0 <= k < |kept| ensures kept[k].id != id {
      assert kept[k] in rest;
    }
  }

  // ---------------------------------------------------------------------------
  // create: site resolution and the call to the scheduler

  /** The site and reschedule flag `create` hands to the scheduler. */
  datatype SiteChoice = SiteChoice(ubsId: Option<int>, rescheduled: bool)

  /** The site-resolution branch of `create`. With doses the requested id
      passes through (`nil.to_i` is 0); without, it is `(allowed & [id]).first`
      when an id was sent, and nil otherwise. */
  function ResolveSite(hasDoses: bool, requested: Option<int>, allowed: seq<int>): (c: SiteChoice)
    ensures hasDoses ==> c.rescheduled && c.ubsId == Some(if requested.Some? then requested.value else 0)
    ensures !hasDoses ==> !c.rescheduled
    ensures !hasDoses ==> (c.ubsId.Some? <==> requested.Some? && requested.value in allowed)
    ensures !hasDoses && c.ubsId.Some? ==> c.ubsId == requested
  {
    if hasDoses then
      SiteChoice(Some(match requested case Some(id) => id case None => 0), true)
    else
      var ubsId := match requested
        case Some(id) => First(Intersect(allowed, [id]))
        case None => None;
      SiteChoice(ubsId, false)
  }

  /** What `create` passes to `scheduler.schedule`. */
  datatype ScheduleRequest = ScheduleRequest(ubsId: Option<int>, desiredStart: Option<int>, reschedule: bool)

  /** What the scheduler answers: a result code and the new appointment, if any. */
  datatype ScheduleAnswer = ScheduleAnswer(result: ResultCode, appointment: Option<Appointment>)

  /** How `create` ends: refused before scheduling, a flash, or an exception. */
  datatype CreateOutcome =
    | Refused(alert: AlertKind)
    | Answered(request: ScheduleRequest, flash: Flash)
    | Failed(request: ScheduleRequest, error: Raised)

  /** `create`: check eligibility (the rescued `CannotCancelAndReschedule`),
      resolve the site, ask the scheduler (`parse_start` is `desired`, nil when
      missing or unparseable) and turn its answer into a message. */
  function Create(
    p: Patient, now: int, sites: seq<Ubs>, requested: Option<int>, desired: Option<int>,
    cfg: Config, scheduler: ScheduleRequest -> ScheduleAnswer): (out: CreateOutcome)
    ensures !CanCancelAndReschedule(p, now) <==> out == Refused(CannotCancelOrReschedule)
    ensures !out.Refused? ==>
      out.request == ScheduleRequest(ResolveSite(p.hasDoses, requested, AllowedUbsIds(p, sites)).ubsId, desired, p.hasDoses)
    ensures !out.Refused? && p.hasDoses ==>
      out.request.ubsId == Some(if requested.Some? then requested.value else 0)
    ensures !out.Refused? && !p.hasDoses ==>
      (out.request.ubsId.Some? <==> requested.Some? && requested.value in AllowedUbsIds(p, sites)) &&
      (out.request.ubsId.Some? ==> out.request.ubsId == requested)
    ensures !out.Refused? ==>
      var answer := scheduler(out.request);
      var message := MessageFor(answer.result, answer.appointment, desired, cfg.rounding);
      (out.Answered? <==> message.Ok?) &&
      (out.Answered? ==> message == Ok(out.flash)) &&
      (out.Failed? ==> message == Err(out.error))
  {
    if !CanCancelAndReschedule(p, now) then
      Refused(CannotCancelOrReschedule)
    else
      var choice := ResolveSite(p.hasDoses, requested, AllowedUbsIds(p, sites));
      var request := ScheduleRequest(choice.ubsId, desired, choice.rescheduled);
      var answer := scheduler(request);
      match MessageFor(answer.result, answer.appointment, desired, cfg.rounding)
      case Ok(flash) => Answered(request, flash)
      case Err(e) => Failed(request, e)
  }

  /** A refused patient never reaches the scheduler: the outcome is the same
      whatever the scheduler would have answered. */
  lemma RefusedCreateIgnoresScheduler(
    p: Patient, now: int, sites: seq<Ubs>, requested: Option<int>, desired: Option<int>,
    cfg: Config, s1: ScheduleRequest -> ScheduleAnswer, s2: ScheduleRequest -> ScheduleAnswer)
    requires !CanCancelAndReschedule(p, now)
    ensures Create(p, now, sites, requested, desired, cfg, s1) == Create(p, now, sites, requested, desired, cfg, s2)
  {
  }

  /** A patient without doses is only ever booked at a site that one of their
      conditions grants. */
  lemma UndosedBookingSiteIsGranted(
    p: Patient, now: int, sites: seq<Ubs>, requested: Option<int>, desired: Option<int>,
    cfg: Config, scheduler: ScheduleRequest -> ScheduleAnswer)
    requires !p.hasDoses
    requires !Create(p, now, sites, requested, desired, cfg, scheduler).Refused?
    requires Create(p, now, sites, requested, desired, cfg, scheduler).request.ubsId.Some?
    ensures var id := Create(p, now, sites, requested, desired, cfg, scheduler).request.ubsId.value;
      exists i :: 0 <= i < |p.conditions| && id in p.conditions[i].ubsIds
  {
  }

  // ---------------------------------------------------------------------------
  // home

  /** The scope the home page counts: `waiting.not_scheduled` for a patient
      with doses, `available_doses` otherwise. */
  datatype CountedPool = WaitingNotScheduled | AvailableDoses

  /** What the home page does. */
  datatype HomeView =
    | RedirectToProfileUpdate
    | RedirectToVaccinated
    | ShowCurrent(canCancelOrReschedule: bool)
    | ShowNothing
    | ShowSlotCount(pool: CountedPool, ubsIds: seq<int>)

  /** `home`: the profile-update guard first, then the vaccinated guard, then
      an existing current appointment; only then, if the patient can
      schedule, the open slots are counted. */
  function Home(p: Patient, now: int, sites: seq<Ubs>): (v: HomeView)
    ensures v == RedirectToProfileUpdate <==> p.forceUserUpdate
    ensures v == RedirectToVaccinated <==> !p.forceUserUpdate && p.vaccinated
    ensures v.ShowCurrent? <==> !p.forceUserUpdate && !p.vaccinated && p.current.Some?
    ensures v.ShowCurrent? ==> v.canCancelOrReschedule == CanCancelAndReschedule(p, now)
    ensures v == ShowNothing <==>
      !p.forceUserUpdate && !p.vaccinated && p.current.None? && !p.canSchedule
    ensures v.ShowSlotCount? <==>
      !p.forceUserUpdate && !p.vaccinated && p.current.None? && p.canSchedule
    ensures v.ShowSlotCount? ==>
      v.ubsIds == AllowedUbsIds(p, sites) &&
      (v.pool == WaitingNotScheduled <==> p.hasDoses)
  {
    if p.forceUserUpdate then RedirectToProfileUpdate
    else if p.vaccinated then RedirectToVaccinated
    else if p.current.Some? then ShowCurrent(CanCancelAndReschedule(p, now))
    else if !p.canSchedule then ShowNothing
    else ShowSlotCount(if p.hasDoses then WaitingNotScheduled else AvailableDoses, AllowedUbsIds(p, sites))
  }

  /** The `from..to` condition of the home page's count: from
      `schedule_from_hours` hours after now to the end of the day
      `schedule_up_to_days` days ahead, both inclusive, at an allowed site. */
  predicate InCountWindow(a: Appointment, now: int, cfg: Config, ubsIds: seq<int>) {
    HoursFrom(now, cfg.scheduleFromHours) <= a.start &&
    NotAfterEndOfDay(a.start, DayOf(DaysFrom(now, cfg.scheduleUpToDays))) &&
    a.ubs.id in ubsIds
  }

  /** The slots of the counted pool that the home page counts. */
  function CountedSlots(pool: seq<Appointment>, now: int, cfg: Config, ubsIds: seq<int>): (r: seq<Appointment>)
    ensures forall a :: a in r <==>
      a in pool &&
      now + cfg.scheduleFromHours * SecondsPerHour <= a.start &&
      a.start < BeginningOfDay(DayOf(now) + cfg.scheduleUpToDays + 1) &&
      a.ubs.id in ubsIds
    ensures forall a :: multiset(r)[a] == (if InCountWindow(a, now, cfg, ubsIds) then multiset(pool)[a] else 0)
  {
    DayOfDaysFrom(now, cfg.scheduleUpToDays);
    KeepMultiplicity(pool, a => InCountWindow(a, now, cfg, ubsIds));
    Keep(pool, a => InCountWindow(a, now, cfg, ubsIds))
  }
}
