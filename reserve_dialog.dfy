/**
 * What the reservation dialog shows for a start, an end and a session: the
 * login prompt when nobody is signed in, otherwise the booking form with the
 * past-start warning, the end-time field's error state and helper text, and
 * whether the reserve button is enabled. Followed by the concrete cases the
 * component tests of the dialog assert, each proved for every day.
 */
module ReserveDialog {
  import opened Wrappers
  import opened Clock
  import opened Auth
  import opened Slots

  datatype DialogView =
    | LoginPrompt
    | BookingForm(endTime: Option<int>, endDisabled: bool, endInvalid: bool,
                  pastWarning: bool, helper: Option<Hint>, reserveEnabled: bool)

  function View(session: Option<Session>, clubId: string, start: int, end: Option<int>,
                settings: ClubSettings, now: int): (v: DialogView)
    ensures v.LoginPrompt? <==> session.None?
    ensures v.BookingForm? ==>
      var isAdmin := IsAdminOfTheClub(session, clubId);
      var verdict := Validate(start, end, settings, isAdmin, now);
      && v.endTime == end
      && (v.pastWarning <==> !isAdmin && start < now)
      && v.endDisabled == v.pastWarning
      && (v.endInvalid <==> verdict.Rejected?)
      && (v.reserveEnabled <==> end.Some? && Bookable(start, end.value, settings, isAdmin, now))
      && v.helper == HelperText(verdict)
  {
    if session.None? then LoginPrompt
    else
      var isAdmin := IsAdminOfTheClub(session, clubId);
      var verdict := Validate(start, end, settings, isAdmin, now);
      var past := !NotInPast(start, isAdmin, now);
      BookingForm(end, past, verdict.Rejected?, past, HelperText(verdict), verdict.Accepted?)
  }

  /** The form as it opens: the end is the default one, an hour after the start. */
  function Opened(session: Option<Session>, clubId: string, start: int, settings: ClubSettings, now: int): (v: DialogView)
    ensures v.BookingForm? ==> v.endTime == Some(start + 60)
  {
    View(session, clubId, start, Some(DefaultEnd(start)), settings, now)
  }

  // The component tests of the dialog, one lemma each. `day` is the test's
  // "tomorrow" (or "yesterday"); the club settings are left free except for
  // what each case needs.

  /** Without a session the dialog offers the login button. */
  lemma NoSessionOffersLogin(clubId: string, start: int, end: Option<int>, settings: ClubSettings, now: int)
    ensures View(None, clubId, start, end, settings, now) == LoginPrompt
  {
  }

  /** 13:00 opens with end 14:00; editing the end to 14:30 leaves it valid and reserve enabled. */
  lemma UserBooksOneHourAndAHalf(session: Session, clubId: string, day: int, settings: ClubSettings, now: int)
    requires now <= At(day, 13, 0)
    requires settings.lastBookableHour * 60 + settings.lastBookableMinute >= 13 * 60 + 30
    ensures Opened(Some(session), clubId, At(day, 13, 0), settings, now).endTime == Some(At(day, 14, 0))
    ensures var v := View(Some(session), clubId, At(day, 13, 0), Some(At(day, 14, 30)), settings, now);
            !v.endInvalid && v.reserveEnabled
  {
    AtParts(day, 13, 0);
    AtParts(day, 14, 0);
    AtParts(day, 14, 30);
  }

  /** A start in the past disables the end field, shows the warning and disables reserve. */
  lemma UserPastStartBlocked(session: Session, clubId: string, day: int, settings: ClubSettings, now: int)
    requires !IsAdminOfTheClub(Some(session), clubId)
    requires At(day, 13, 0) < now
    ensures var v := Opened(Some(session), clubId, At(day, 13, 0), settings, now);
            v.endDisabled && v.pastWarning && !v.reserveEnabled
  {
  }

  /** 13:00 to 15:30 is two hours and a half: invalid, with the limit message, reserve disabled. */
  lemma UserOverTwoHours(session: Session, clubId: string, day: int, settings: ClubSettings, now: int)
    requires !IsAdminOfTheClub(Some(session), clubId)
    requires now <= At(day, 13, 0)
    ensures var v := View(Some(session), clubId, At(day, 13, 0), Some(At(day, 15, 30)), settings, now);
            v.endInvalid && v.helper == Some(LimitHint) && !v.reserveEnabled
  {
  }

  /** With the last bookable time 20:`minute`, a start there may end one hour later but
      not an hour and a half or two hours later (both with the limit message). */
  lemma UserClosingBound(session: Session, clubId: string, day: int, minute: int, hoursBeforeCancel: int, now: int)
    requires !IsAdminOfTheClub(Some(session), clubId)
    requires minute == 0 || minute == 30
    requires now <= At(day, 20, minute)
    ensures var settings := ClubSettings(20, minute, hoursBeforeCancel);
            var start := At(day, 20, minute);
            && !View(Some(session), clubId, start, Some(start + 60), settings, now).endInvalid
            && View(Some(session), clubId, start, Some(start + 90), settings, now).helper == Some(LimitHint)
            && View(Some(session), clubId, start, Some(start + 120), settings, now).helper == Some(LimitHint)
  {
    AtParts(day, 20, minute);
    if minute == 0 {
      AtParts(day, 21, 0);
      AtParts(day, 21, 30);
      AtParts(day, 22, 0);
    } else {
      AtParts(day, 21, 30);
      AtParts(day, 22, 0);
      AtParts(day, 22, 30);
    }
  }

  /** 13:00 to 14:12: invalid with the granularity message. */
  lemma UserOffSlotEnd(session: Session, clubId: string, day: int, settings: ClubSettings, now: int)
    requires now <= At(day, 13, 0)
    ensures var v := View(Some(session), clubId, At(day, 13, 0), Some(At(day, 14, 12)), settings, now);
            v.endInvalid && v.helper == Some(SlotHint) && !v.reserveEnabled
  {
  }

  /** An administrator of the club books 13:00 to 18:00 today, whatever the time now and the closing time. */
  lemma AdminBooksFiveHours(session: Session, clubId: string, day: int, settings: ClubSettings, now: int)
    requires session.role == Admin && session.clubId == Some(clubId)
    ensures var v := View(Some(session), clubId, At(day, 13, 0), Some(At(day, 18, 0)), settings, now);
            !v.endInvalid && v.reserveEnabled
  {
  }
}
