/**
 * The time-slot rules a reservation must satisfy before it is booked: the
 * end is present and after the start, a user cannot book in the past, both
 * ends fall on the hour or the half hour, and a user (not an administrator
 * of the club) books at most two hours and ends at most one hour after the
 * club's last bookable time.
 */
module Slots {
  import opened Wrappers
  import opened Clock

  /** The club settings the booking flow reads. */
  datatype ClubSettings = ClubSettings(lastBookableHour: int, lastBookableMinute: int, hoursBeforeCancel: int)

  datatype ReservationError =
    | InvalidRange      // no end, or an end not after the start
    | PastTime          // the start lies before now
    | BadGranularity    // a minute component other than 0 or 30
    | DurationExceeded  // a user booking longer than two hours
    | AfterClosing      // a user booking ending after the closing bound
    | Conflict          // the court is already booked in part of the interval

  datatype Check = Accepted | Rejected(reason: ReservationError)

  /** The two helper texts the end-time field shows under an invalid entry. */
  datatype Hint =
    | SlotHint   // "book 1 hour, 1 hour and a half or 2 hours"
    | LimitHint  // "book at most 2 hours, respect the club's closing time"

  const MaxUserMinutes: int := 120
  const DefaultMinutes: int := 60
  const ClosingGraceMinutes: int := 60

  /** A time on the hour or on the half hour. */
  predicate OnSlot(t: int) {
    MinuteOf(t) == 0 || MinuteOf(t) == 30
  }

  /** The latest end a user may book for a reservation starting at `start`:
      the club's last bookable time that day plus one hour. */
  function ClosingLimit(start: int, settings: ClubSettings): (limit: int) {
    DayStart(start) + settings.lastBookableHour * MinutesPerHour + settings.lastBookableMinute + ClosingGraceMinutes
  }

  /** The end the dialog proposes before the user edits it: one hour after the start. */
  function DefaultEnd(start: int): (end: int)
    ensures end - start == DefaultMinutes
    ensures OnSlot(start) ==> OnSlot(end)
  {
    start + DefaultMinutes
  }

  // The rules, one predicate each; `Bookable` is their conjunction.

  predicate NotInPast(start: int, isAdmin: bool, now: int) {
    isAdmin || now <= start
  }

  predicate WithinUserDuration(start: int, end: int, isAdmin: bool) {
    isAdmin || end - start <= MaxUserMinutes
  }

  predicate BeforeClosing(start: int, end: int, settings: ClubSettings, isAdmin: bool) {
    isAdmin || end <= ClosingLimit(start, settings)
  }

  predicate Bookable(start: int, end: int, settings: ClubSettings, isAdmin: bool, now: int) {
    && start < end
    && NotInPast(start, isAdmin, now)
    && OnSlot(start) && OnSlot(end)
    && WithinUserDuration(start, end, isAdmin)
    && BeforeClosing(start, end, settings, isAdmin)
  }

  /**
   * The validator: the first rule that fails, in the order the dialog reports
   * them (missing end, past start, granularity, order of the ends, duration,
   * closing), or Accepted.
   */
  function Validate(start: int, end: Option<int>, settings: ClubSettings, isAdmin: bool, now: int): (r: Check)
    ensures r.Accepted? <==> end.Some? && Bookable(start, end.value, settings, isAdmin, now)
    ensures end.None? ==> r == Rejected(InvalidRange)
    ensures end.Some? && !NotInPast(start, isAdmin, now) ==> r == Rejected(PastTime)
    ensures end.Some? && NotInPast(start, isAdmin, now) && !(OnSlot(start) && OnSlot(end.value))
            ==> r == Rejected(BadGranularity)
    ensures end.Some? && NotInPast(start, isAdmin, now) && OnSlot(start) && OnSlot(end.value) && end.value <= start
            ==> r == Rejected(InvalidRange)
    ensures end.Some? && NotInPast(start, isAdmin, now) && OnSlot(start) && OnSlot(end.value) && start < end.value
            && !WithinUserDuration(start, end.value, isAdmin)
            ==> r == Rejected(DurationExceeded)
    ensures r == Rejected(DurationExceeded) ==> !WithinUserDuration(start, end.value, isAdmin)
    ensures end.Some? && NotInPast(start, isAdmin, now) && OnSlot(start) && OnSlot(end.value) && start < end.value
            && WithinUserDuration(start, end.value, isAdmin) && !BeforeClosing(start, end.value, settings, isAdmin)
            ==> r == Rejected(AfterClosing)
    ensures r == Rejected(AfterClosing) ==> !BeforeClosing(start, end.value, settings, isAdmin)
    ensures r != Rejected(Conflict)
  {
    if end.None? then Rejected(InvalidRange)
    else if !NotInPast(start, isAdmin, now) then Rejected(PastTime)
    else if !(OnSlot(start) && OnSlot(end.value)) then Rejected(BadGranularity)
    else if end.value <= start then Rejected(InvalidRange)
    else if !WithinUserDuration(start, end.value, isAdmin) then Rejected(DurationExceeded)
    else if !BeforeClosing(start, end.value, settings, isAdmin) then Rejected(AfterClosing)
    else Accepted
  }

  /** The helper text shown under the end-time field for a verdict: the two
      limit rules share one message, granularity has its own. */
  function HelperText(c: Check): (h: Option<Hint>)
    ensures h == Some(SlotHint) <==> c == Rejected(BadGranularity)
    ensures h == Some(LimitHint) <==> c == Rejected(DurationExceeded) || c == Rejected(AfterClosing)
  {
    match c
    case Rejected(BadGranularity) => Some(SlotHint)
    case Rejected(DurationExceeded) => Some(LimitHint)
    case Rejected(AfterClosing) => Some(LimitHint)
    case _ => None
  }

  /** An administrator of the club is held only to the order and the granularity of the ends. */
  lemma AdminNeedsOnlySlots(start: int, end: int, settings: ClubSettings, now: int)
    ensures Validate(start, Some(end), settings, true, now).Accepted?
            <==> start < end && OnSlot(start) && OnSlot(end)
  {
  }

  /** Whatever a user may book, an administrator may book too. */
  lemma AdminExemptionIsMonotone(start: int, end: Option<int>, settings: ClubSettings, now: int)
    ensures Validate(start, end, settings, false, now).Accepted? ==> Validate(start, end, settings, true, now).Accepted?
  {
  }

  /** Granularity binds administrators as well as users, whatever the duration. */
  lemma GranularityBindsEveryone(start: int, end: int, settings: ClubSettings, isAdmin: bool, now: int)
    requires NotInPast(start, isAdmin, now)
    requires !OnSlot(start) || !OnSlot(end)
    ensures Validate(start, Some(end), settings, isAdmin, now) == Rejected(BadGranularity)
  {
  }

  /** For a user, a well-formed booking in the future is refused for its length exactly when it exceeds two hours. */
  lemma UserDurationCap(start: int, end: int, settings: ClubSettings, now: int)
    requires now <= start < end && OnSlot(start) && OnSlot(end)
    ensures Validate(start, Some(end), settings, false, now) == Rejected(DurationExceeded)
            <==> end - start > MaxUserMinutes
  {
  }

  /** A user's future, ordered, on-slot booking that is too long or ends after the closing
      bound shows the shared limit message; within both limits it shows no message. */
  lemma UserLimitsShowLimitHint(start: int, end: int, settings: ClubSettings, now: int)
    requires now <= start < end && OnSlot(start) && OnSlot(end)
    ensures HelperText(Validate(start, Some(end), settings, false, now)) == Some(LimitHint)
            <==> end - start > MaxUserMinutes || end > ClosingLimit(start, settings)
  {
  }

  /** The default end of a future on-slot start that leaves an hour before the closing bound is accepted for a user. */
  lemma DefaultEndAccepted(start: int, settings: ClubSettings, now: int)
    requires now <= start && OnSlot(start)
    requires DefaultEnd(start) <= ClosingLimit(start, settings)
    ensures Validate(start, Some(DefaultEnd(start)), settings, false, now) == Accepted
  {
  }
}
