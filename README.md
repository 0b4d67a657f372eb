# Community appointments: slot predicates and booking decisions

This project models two pieces of the vaccination-scheduling application
(agenda-saude) in Dafny and proves their properties:

- the `Appointment` model (`app/models/appointment.rb`): what makes a slot
  *free*, *active*, *in the future*, *in today's check-in window*, *within a
  day* and *within the allowed booking window*, and the query scopes built on
  those conditions;
- the decision helpers of `Community::AppointmentsController`
  (`app/controllers/community/appointments_controller.rb`): who may cancel or
  reschedule, which page of days the index shows, which site a booking
  request resolves to, which sites a patient may book at, which flash
  message a scheduling result produces, and the order of the guards on the
  home page.

Files:

- `collections.dfy` (module `Collections`): `Option`, and the Ruby and
  ActiveRecord collection operations the source uses: an order-keeping filter
  (`where`), `flat_map`'s flattening, `uniq`, `&` and `first`.
- `calendar.dfy` (module `Calendar`): instants as whole seconds in the
  application's time zone, day indices, `beginning_of_day`, `end_of_day`,
  `n.days.from_now` and `n.hours.from_now`.
- `appointment.dfy` (module `Appointments`): the `Ubs` (site) and
  `Appointment` (slot) records, one predicate per condition and one filter per
  scope.
- `appointments_controller.dfy` (module `CommunityAppointments`): the
  controller's helpers and the decision flow of `create` and `home`.

Modelling choices:

- A scope is a condition on one slot plus a filter over a sequence of slots
  that keeps their order; the database query becomes a filter in memory.
- The clock (`Time.current`, `Time.zone.now`) is a parameter `now`.
- Instants are whole seconds. Rails' `end_of_day` is 23:59:59.999999999, so for
  a whole-second instant `t` both `t <= end_of_day` and `t < end_of_day` mean
  "before the next midnight"; the model states both that way
  (`Calendar.NotAfterEndOfDay`).
- Nullable columns are `Option` values. A SQL `= true` condition and Ruby's
  `== true` both accept only a stored `true`.
- Request parameters arrive already converted with Ruby's `to_i`; an absent
  parameter is `None`. `parse_start` is an optional instant, with a failed
  parse being `None`.
- The scheduler (`AppointmentScheduler`) is an outside collaborator. Its
  answers are parameters: `days_ahead_with_open_slot` is an optional day
  count, and `schedule` is a function from the request to a result code and
  an optional appointment. `ROUNDING`, `schedule_from_hours` and
  `schedule_up_to_days` are fields of a `Config` value.
- Flash messages are modelled by kind (`Alert`/`Notice` and which one), not
  by their Portuguese text.

Two places where the code does less than a reader might expect; the model
follows the code:

- The comment in `create` (appointments_controller.rb:65) says a patient
  with doses is kept "in the same UBS". The code on line 67, however, passes
  the requested site id through unchanged (an absent id becomes 0, as
  `nil.to_i` is 0). `ResolveSite` and `Create` state what the code does.
- `can_cancel_and_reschedule?` answers true for a patient without doses who
  has no current slot at all (lines 119-123), and so does
  `CanCancelAndReschedule`.

## Model

| member | source | states |
|---|---|---|
| `Appointments.SlotsWindowInDays` | app/models/appointment.rb:5 | The window is 7 days when the environment variable is unset. When it is set, its `to_i` value is used, even 0, because 0 is true in Ruby. |
| `Appointments.WithoutCheckout` | app/models/appointment.rb:8 | A slot is kept iff it is in the input and its check-out is nil. Each kept slot appears as many times as in the input. |
| `Appointments.Today` | app/models/appointment.rb:7 | A slot is kept iff its start lies between today's midnight (inclusive) and tomorrow's midnight (exclusive). Each kept slot appears as many times as in the input. |
| `Appointments.ActiveFromDay` | app/models/appointment.rb:9-11 | A slot is kept iff it starts at or after the day's beginning and ends no later than the day's end. Each kept slot appears as many times as in the input. |
| `Appointments.WithinDayStartsThatDay` | app/models/appointment.rb:9-11 | A slot kept by `active_from_day(day)` whose start is not after its end starts on that day. |
| `Appointments.Futures` | app/models/appointment.rb:13 | A slot is kept iff it starts strictly after now, so a slot starting exactly now is excluded. Each kept slot appears as many times as in the input. |
| `Appointments.ActiveOnlyWhenTrue` | app/models/appointment.rb:15-17 | `active?` holds iff the column holds `true`; nil and false both give false. |
| `Appointments.CheckInWindowIsTodayAfterMidnight` | app/models/appointment.rb:19-21 | Both bounds are exclusive: a slot is in the check-in window iff it starts today and not exactly at today's midnight. |
| `Appointments.Free` | app/models/appointment.rb:23-25 | A slot is kept iff its site's `active` is `true` and no patient holds it. Identical slots (a site's capacity) are all kept: each kept slot appears as many times as in the input. |
| `Appointments.WithinAllowedWindow` | app/models/appointment.rb:27-29 | A slot is kept iff now <= start and start <= the end of the day `SLOTS_WINDOW_IN_DAYS` days ahead. Both ends are inclusive. Each kept slot appears as many times as in the input. |
| `Appointments.AllowedWindowCoversRestOfToday` | app/models/appointment.rb:27-29 | With a non-negative window, every slot from now to the end of today is in the allowed window. Every slot in the window except one starting exactly now is a future slot. |
| `Appointments.FreeFuturesCommute` | app/models/appointment.rb:13-25 | Chaining `free` and `futures` in either order keeps the same slots in the same order, and equals one filter by both conditions. |
| `Calendar.EndOfDayAfterDays` | app/models/appointment.rb:28 | An instant is at most `(now + n.days).end_of_day` iff it is before the midnight that ends day `today + n`. |
| `CommunityAppointments.CanCancelAndReschedule` | app/controllers/community/appointments_controller.rb:114-124 | With doses, the answer is true iff `got_reschedule_condition?` holds. Without doses, the answer is false iff the current not-checked-out slot exists, is `follow_up_for_dose`, and `now < start`. |
| `CommunityAppointments.UndosedRefusedOnlyBeforeFollowUp` | app/controllers/community/appointments_controller.rb:119-123 | A patient without doses may cancel in three cases: they have no current slot, their slot has started, or their slot is not a follow-up slot. |
| `CommunityAppointments.ParseDays` | app/controllers/community/appointments_controller.rb:168-176 | The result never exceeds `schedule_up_to_days` and, for a non-negative ceiling, is never below 0. A given page is clamped into the range. Without a page, the scheduler's day count is clamped instead. A negative value or a missing count gives 0 when the ceiling is non-negative. |
| `CommunityAppointments.ParseDaysIgnoresSchedulerWithPage` | app/controllers/community/appointments_controller.rb:172 | When a page is given, the scheduler's answer does not change the result. |
| `CommunityAppointments.SuccessMessage` | app/controllers/community/appointments_controller.rb:158-165 | The time is reported as changed iff a time was asked for and the booked start lies outside [desired − ROUNDING, desired + ROUNDING]. |
| `CommunityAppointments.ToleranceBoundaryIsPlainSuccess` | app/controllers/community/appointments_controller.rb:159 | A difference of exactly `ROUNDING`, in either direction, gives the plain success message. |
| `CommunityAppointments.MessageFor` | app/controllers/community/appointments_controller.rb:138-156 | `CONDITIONS_UNMET` and `NO_SLOTS` give their alerts. `SUCCESS` gives a notice, which says the time changed iff the tolerance test fails. Any other code raises, and so does `SUCCESS` without an appointment. |
| `CommunityAppointments.MessageKindsByResult` | app/controllers/community/appointments_controller.rb:138-156 | When no exception is raised, the message is an alert iff the code is `CONDITIONS_UNMET` or `NO_SLOTS`, and it is a notice iff the code is `SUCCESS`. |
| `CommunityAppointments.AllowedUbsIds` | app/controllers/community/appointments_controller.rb:184-190 | With doses, an id is listed iff some site with that id has `enabled_for_reschedule` true. Without doses, the list has no duplicates and an id is listed iff some condition of the patient grants it. |
| `CommunityAppointments.AllowedUbsIdsDistinctWithDoses` | app/controllers/community/appointments_controller.rb:186 | When the sites' ids are distinct, the reschedule list of a patient with doses names each site once. |
| `CommunityAppointments.AllowedUbsIdsInConditionOrder` | app/controllers/community/appointments_controller.rb:188 | Without doses, when the conditions' site lists together name every site once, `uniq` drops nothing and the allowed ids are those lists concatenated in condition order. |
| `Collections.IntersectSingleton` | app/controllers/community/appointments_controller.rb:72 | `allowed & [id]` is `[id]` when `id` is allowed and is empty otherwise. |
| `CommunityAppointments.ResolveSite` | app/controllers/community/appointments_controller.rb:66-73 | With doses, the requested id passes through (absent gives 0) and `rescheduled` is true. Without doses, the site is the requested id iff that id was sent and is allowed, otherwise it is nil, and `rescheduled` is false. |
| `CommunityAppointments.Create` | app/controllers/community/appointments_controller.rb:62-87 | The request is refused with the cannot-cancel alert iff `can_cancel_and_reschedule?` is false. Otherwise the scheduler receives the site `ResolveSite` gives, the desired start, and `reschedule` set iff the patient has doses: with doses the requested id (0 when none was sent); without doses the requested id exactly when it was sent and is allowed, otherwise nil. The outcome is the flash `message_for` makes of the scheduler's answer, or the exception it raises. |
| `CommunityAppointments.RefusedCreateIgnoresScheduler` | app/controllers/community/appointments_controller.rb:62-87 | A refused request ends the same way whatever the scheduler would answer, so the scheduler is never consulted. |
| `CommunityAppointments.UndosedBookingSiteIsGranted` | app/controllers/community/appointments_controller.rb:66-87 | A patient without doses is only ever sent to the scheduler with a site that one of their conditions grants. |
| `CommunityAppointments.Home` | app/controllers/community/appointments_controller.rb:6-33 | The guards fire in this order: forced profile update, vaccinated, existing current appointment (shown with the cancel/reschedule answer). Slots are counted iff none of those fired and `can_schedule?` holds, from the waiting pool iff the patient has doses, at the allowed sites. |
| `CommunityAppointments.CountedSlots` | app/controllers/community/appointments_controller.rb:126-132 | A slot of the pool is counted iff it starts no earlier than `schedule_from_hours` hours from now, no later than the end of the day `schedule_up_to_days` days ahead, and at an allowed site. Each counted slot is counted as many times as it occurs in the pool. |

## Left out

- `AppointmentScheduler` (`schedule`, `cancel_schedule`, `open_times_per_ubs`,
  `days_ahead_with_open_slot`, `ROUNDING`): its source is not part of this
  model. Its answers are parameters, and slot claiming, locking and concurrent
  contention are not modelled.
- The scopes `waiting`, `not_scheduled`, `available_doses`, `current` and
  `not_checked_out`, and the patient methods `force_user_update?`,
  `vaccinated?`, `can_schedule?`, `got_reschedule_condition?` and
  `change_reschedule_after`, are not part of this model. Their results are
  fields of `Patient` or the counted pool given to `CountedSlots`.
- The `index`, `destroy` and `vaccinated` actions are not modelled beyond
  the helpers they call (`parse_days`, `allowed_ubs_ids` and
  `can_cancel_and_reschedule?`). Their remaining work is scheduler calls,
  redirects and the sort by site name, which is presentation over the
  scheduler's output.
- Redirects, the Portuguese flash texts, the `cy` test tag, strong parameters
  and the view's instance variables (`@doses`, `@can_change_after`) are Rails
  request plumbing. The model keeps only the kind of each message.
- `count` and `pluck`, and the SQL queries themselves. Scopes are filters over a
  sequence of slots held in memory, so the database's row order is not
  modelled.
- `ENV` and `Rails.configuration` reads: their values are parameters.
- Ruby's `String#to_i` and `Time.zone.parse`: parameters arrive already
  converted, and a parse failure is `None`.
- Time zones and daylight-saving time: a day is 86400 seconds in one fixed
  zone. The `today` scope's SQL `date(start)` is taken in the same zone as
  `Date.current`.
- Sub-second instants: instants are whole seconds (see `Calendar`).
