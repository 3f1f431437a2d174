/**
 * The reservation detail dialog: who may delete a reservation, when it is too
 * late to cancel it, what the dialog shows as a consequence, and the small
 * calendar store the dialog reads and writes when a deletion is confirmed.
 */
module EventDetailDialog {
  import opened Wrappers
  import opened Auth
  import opened Slots

  /** The calendar event the user clicked, with the fields the dialog reads. */
  datatype EventDetails = EventDetails(id: string, start: Option<int>, userId: Option<string>, recurrentId: Option<string>)

  /** The dialog's one failure: an event without a start time. */
  datatype DialogError = MissingStartTime

  /** The delete request sent to the server. */
  datatype DeleteCommand = DeleteCommand(reservationId: string, clubId: string)

  /**
   * What the dialog shows for an event: nothing without an event; otherwise
   * the warning, the delete button (`Some(disabled)` when present), the
   * recurrent-cancel dialog, and the single confirmation dialog (`Some(open)` when present).
   */
  datatype DetailView =
    | Hidden
    | Shown(warning: bool, deleteButton: Option<bool>, recurrentDialog: bool, confirmation: Option<bool>)

  /** The session user administers the club, or owns the reservation (with a non-empty id). */
  predicate CanDelete(session: Option<Session>, clubId: string, details: Option<EventDetails>)
    ensures IsAdminOfTheClub(session, clubId) ==> CanDelete(session, clubId, details)
    ensures (&& session.Some? && session.value.userId.Some? && session.value.userId.value != ""
             && details.Some? && details.value.userId == session.value.userId)
            ==> CanDelete(session, clubId, details)
    ensures CanDelete(session, clubId, details) ==> session.Some?
  {
    || IsAdminOfTheClub(session, clubId)
    || (&& session.Some? && Truthy(session.value.userId)
        && details.Some? && details.value.userId == session.value.userId)
  }

  /**
   * The start lies strictly before now plus the cancellation window, and the
   * user is not an administrator of the club; an event without a start is an error.
   */
  function TooLateToCancel(start: Option<int>, hoursBeforeCancel: int, now: int, isAdmin: bool): (r: Result<bool, DialogError>)
    ensures r.Err? <==> start.None?
    ensures r == Ok(true) ==> !isAdmin && start.value - now < hoursBeforeCancel * 60
    ensures r == Ok(false) ==> isAdmin || start.value - now >= hoursBeforeCancel * 60
  {
    if start.None? then Err(MissingStartTime)
    else Ok(start.value < now + hoursBeforeCancel * 60 && !isAdmin)
  }

  function DialogView(session: Option<Session>, clubId: string, details: Option<EventDetails>,
                      settings: ClubSettings, now: int, confirmationOpen: bool): (r: Result<DetailView, DialogError>)
    ensures r == Ok(Hidden) <==> details.None?
    ensures r.Err? <==> details.Some? && CanDelete(session, clubId, details) && details.value.start.None?
    ensures r.Ok? && r.value.Shown? ==>
      var tooLate := CanDelete(session, clubId, details) &&
        TooLateToCancel(details.value.start, settings.hoursBeforeCancel, now, IsAdminOfTheClub(session, clubId)) == Ok(true);
      && (r.value.warning <==> tooLate)
      && (r.value.deleteButton.Some? <==> CanDelete(session, clubId, details))
      && (r.value.deleteButton == Some(true) <==> tooLate)
      && (r.value.recurrentDialog <==> Truthy(details.value.recurrentId))
      && (r.value.confirmation.Some? <==> !Truthy(details.value.recurrentId))
      && (r.value.confirmation.Some? ==> r.value.confirmation.value == confirmationOpen)
  {
    if details.None? then Ok(Hidden)
    else
      var recurrent := Truthy(details.value.recurrentId);
      var confirmation := if recurrent then None else Some(confirmationOpen);
      if !CanDelete(session, clubId, details) then Ok(Shown(false, None, recurrent, confirmation))
      else match TooLateToCancel(details.value.start, settings.hoursBeforeCancel, now, IsAdminOfTheClub(session, clubId))
        case Err(e) => Err(e)
        case Ok(tooLate) => Ok(Shown(tooLate, Some(tooLate), recurrent, confirmation))
  }

  /** Only an administrator of the club or the owner of the reservation may delete it. */
  lemma DeleterIsAdminOrOwner(session: Option<Session>, clubId: string, details: Option<EventDetails>)
    requires CanDelete(session, clubId, details)
    requires !IsAdminOfTheClub(session, clubId)
    ensures session.Some? && details.Some? && details.value.userId.Some?
    ensures details.value.userId == session.value.userId
  {
  }

  /** A signed-in user without an id (or with an empty one) who is not an administrator can never delete. */
  lemma NoIdNoDelete(session: Option<Session>, clubId: string, details: Option<EventDetails>)
    requires !IsAdminOfTheClub(session, clubId)
    requires session.None? || !Truthy(session.value.userId)
    ensures !CanDelete(session, clubId, details)
  {
  }

  /** A start exactly at the end of the cancellation window is not too late. */
  lemma BoundaryIsNotTooLate(now: int, hoursBeforeCancel: int, isAdmin: bool)
    ensures TooLateToCancel(Some(now + hoursBeforeCancel * 60), hoursBeforeCancel, now, isAdmin) == Ok(false)
  {
  }

  /** For an administrator of the club it is never too late, whatever the start. */
  lemma AdminNeverTooLate(start: int, hoursBeforeCancel: int, now: int)
    ensures TooLateToCancel(Some(start), hoursBeforeCancel, now, true) == Ok(false)
  {
  }

  /** The delete button is shown and enabled: the user may delete and it is not too late. */
  predicate DeleteEnabled(session: Option<Session>, clubId: string, details: Option<EventDetails>,
                          settings: ClubSettings, now: int)
  {
    && details.Some? && CanDelete(session, clubId, details)
    && TooLateToCancel(details.value.start, settings.hoursBeforeCancel, now, IsAdminOfTheClub(session, clubId)) == Ok(false)
  }

  /** The delete button is enabled exactly when the dialog shows it with `disabled` false. */
  lemma DeleteEnabledIffButtonEnabled(session: Option<Session>, clubId: string, details: Option<EventDetails>,
                                      settings: ClubSettings, now: int, confirmationOpen: bool)
    ensures DeleteEnabled(session, clubId, details, settings, now) <==>
            var r := DialogView(session, clubId, details, settings, now, confirmationOpen);
            r.Ok? && r.value.Shown? && r.value.deleteButton == Some(false)
  {
  }

  /** Someone who neither administers the club nor owns the reservation never gets an enabled delete button. */
  lemma StrangerCannotDelete(session: Option<Session>, clubId: string, details: Option<EventDetails>,
                             settings: ClubSettings, now: int)
    requires !IsAdminOfTheClub(session, clubId)
    requires session.None? || details.None? || details.value.userId != session.value.userId
    ensures !DeleteEnabled(session, clubId, details, settings, now)
  {
  }

  /** Within the cancellation window a user's own reservation cannot be deleted either. */
  lemma OwnerTooLateCannotDelete(session: Session, clubId: string, details: EventDetails,
                                 settings: ClubSettings, now: int)
    requires !IsAdminOfTheClub(Some(session), clubId)
    requires details.start.Some? && details.start.value < now + settings.hoursBeforeCancel * 60
    ensures !DeleteEnabled(Some(session), clubId, Some(details), settings, now)
  {
  }

  /** The slice of the calendar store the dialog uses. */
  class CalendarStore {
    const clubId: string
    var eventDetails: Option<EventDetails>
    var deleteConfirmationOpen: bool
    /** The delete requests issued so far, oldest first. */
    var deletes: seq<DeleteCommand>

    constructor (clubId: string, eventDetails: Option<EventDetails>)
      ensures this.clubId == clubId && this.eventDetails == eventDetails
      ensures !deleteConfirmationOpen && deletes == []
    {
      this.clubId := clubId;
      this.eventDetails := eventDetails;
      deleteConfirmationOpen := false;
      deletes := [];
    }

    /** The delete button's click: open the confirmation. The button is only
        there, and enabled, when the user may delete and it is not too late. */
    method OpenDeleteConfirmation(session: Option<Session>, settings: ClubSettings, now: int)
      requires DeleteEnabled(session, clubId, eventDetails, settings, now)
      modifies this
      ensures deleteConfirmationOpen
      ensures eventDetails == old(eventDetails) && deletes == old(deletes)
    {
      deleteConfirmationOpen := true;
    }

    /** The confirmation dismissed without deleting. */
    method CloseDeleteConfirmation()
      modifies this
      ensures !deleteConfirmationOpen
      ensures eventDetails == old(eventDetails) && deletes == old(deletes)
    {
      deleteConfirmationOpen := false;
    }

    /** The dialog closed: no event is selected any more. */
    method Close()
      modifies this
      ensures eventDetails == None
      ensures deleteConfirmationOpen == old(deleteConfirmationOpen) && deletes == old(deletes)
    {
      eventDetails := None;
    }

    /** Issues one delete for `reservationId` in this club, then clears the
        selected event and closes the confirmation. */
    method DeleteReservation(reservationId: string)
      modifies this
      ensures deletes == old(deletes) + [DeleteCommand(reservationId, clubId)]
      ensures eventDetails == None && !deleteConfirmationOpen
    {
      deletes := deletes + [DeleteCommand(reservationId, clubId)];
      eventDetails := None;
      deleteConfirmationOpen := false;
    }

    /** The confirmation's confirm button: delete the event the dialog shows. The
        single confirmation is rendered only for a non-recurrent event, and only
        an open one can be confirmed. */
    method ConfirmDelete()
      requires eventDetails.Some? && !Truthy(eventDetails.value.recurrentId)
      requires deleteConfirmationOpen
      modifies this
      ensures deletes == old(deletes) + [DeleteCommand(old(eventDetails).value.id, clubId)]
      ensures eventDetails == None && !deleteConfirmationOpen
    {
      DeleteReservation(eventDetails.value.id);
    }
  }

  /** The owner of a single future reservation opens the confirmation and
      confirms it: exactly one delete for that reservation is issued. */
  method OwnerDeletesSingleReservation(userId: string, clubId: string, settings: ClubSettings, now: int)
    returns (deletes: seq<DeleteCommand>)
    requires userId != ""
    ensures deletes == [DeleteCommand("r1", clubId)]
  {
    var session := Session(Some(userId), User, None);
    var details := EventDetails("r1", Some(now + settings.hoursBeforeCancel * 60), Some(userId), None);
    var store := new CalendarStore(clubId, Some(details));
    store.OpenDeleteConfirmation(Some(session), settings, now);
    store.ConfirmDelete();
    deletes := store.deletes;
  }
}
