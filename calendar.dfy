/**
 * The calendar page: courts become the calendar's resources, reservations
 * become its events, the visible range is one week from today, and the page
 * keeps the state of a pending booking (court, start, dialog open) and the
 * requests it sends to the server.
 */
module Calendar {
  import opened Wrappers
  import opened Clock
  import opened Reservations
  import opened Seqs

  datatype Court = Court(id: string, name: string)
  datatype Resource = Resource(id: string, title: string)

  /** A reservation as the query returns it, with the name of its user (which may be null). */
  datatype ReservationWithUser = ReservationWithUser(reservation: Reservation, userName: Option<string>)

  datatype Event = Event(id: string, title: string, start: int, end: int, allDay: bool, resourceId: string)

  datatype Range = Range(start: int, end: int)

  /** A click on an empty slot: the instant and, in the resource view, the court's column. */
  datatype DateClick = DateClick(date: int, resource: Option<Resource>)

  datatype CalendarError = NoCourtSelected

  datatype Mutation =
    | InsertReservation(courtId: string, start: int, end: int)
    | DeleteReservation(reservationId: string)

  /** The calendar's resources: none before the courts have loaded, else one per court, in order. */
  function GetCourts(data: Option<seq<Court>>): (r: seq<Resource>)
    ensures data.None? ==> r == []
    ensures data.Some? ==> |r| == |data.value|
    ensures data.Some? ==> forall i :: 0 <= i < |r| ==> r[i].id == data.value[i].id && r[i].title == data.value[i].name
  {
    if data.None? then []
    else seq(|data.value|, i requires 0 <= i < |data.value| => Resource(data.value[i].id, data.value[i].name))
  }

  /** The calendar event of one reservation, titled with its user's name or "" when it has none. */
  function ToEvent(row: ReservationWithUser): (e: Event)
    ensures e.id == row.reservation.id && e.resourceId == row.reservation.courtId
    ensures e.start == row.reservation.start && e.end == row.reservation.end && !e.allDay
    ensures row.userName.None? ==> e.title == ""
    ensures row.userName.Some? ==> e.title == row.userName.value
  {
    Event(row.reservation.id, row.userName.GetOr(""), row.reservation.start, row.reservation.end, false,
          row.reservation.courtId)
  }

  /** One event per reservation, in the order of the query. */
  function ToEvents(rows: seq<ReservationWithUser>): (es: seq<Event>)
    ensures |es| == |rows|
    ensures forall i :: 0 <= i < |rows| ==> es[i] == ToEvent(rows[i])
  {
    if rows == [] then [] else [ToEvent(rows[0])] + ToEvents(rows[1..])
  }

  function ReservationsOf(rows: seq<ReservationWithUser>): (rs: seq<Reservation>)
    ensures |rs| == |rows| && forall i :: 0 <= i < |rows| ==> rs[i] == rows[i].reservation
  {
    seq(|rows|, i requires 0 <= i < |rows| => rows[i].reservation)
  }

  /** A store free of clashes gives events that never overlap in one court's column,
      and distinct reservation ids give distinct event ids. */
  lemma EventsKeepStoreInvariant(rows: seq<ReservationWithUser>)
    requires NoClashes(ReservationsOf(rows)) && DistinctBy(ReservationsOf(rows), ReservationId)
    ensures var es := ToEvents(rows);
            forall i, j :: 0 <= i < j < |es| ==>
              es[i].id != es[j].id &&
              (es[i].resourceId == es[j].resourceId ==> !Overlaps(es[i].start, es[i].end, es[j].start, es[j].end))
  {
    var es := ToEvents(rows);
    var rs := ReservationsOf(rows);
    forall i, j | 0 <= i < j < |es|
      ensures es[i].id != es[j].id
      ensures es[i].resourceId == es[j].resourceId ==> !Overlaps(es[i].start, es[i].end, es[j].start, es[j].end)
    {
      assert es[i] == ToEvent(rows[i]) && rs[i] == rows[i].reservation;
      assert es[j] == ToEvent(rows[j]) && rs[j] == rows[j].reservation;
      assert !Clashes(rs[i], rs[j].courtId, rs[j].start, rs[j].end);
    }
  }

  /** The days the calendar lets the user navigate: from the current date to seven days later. */
  function ValidRange(current: int): (r: Range)
    ensures r.start == current && r.end - r.start == 7 * MinutesPerDay
  {
    Range(current, current + 7 * MinutesPerDay)
  }

  /** The position of the first event with identifier `id`, as the calendar's lookup by id finds it. */
  function FindEvent(events: seq<Event>, id: string): (i: Option<nat>)
    ensures i.Some? ==> i.value < |events| && events[i.value].id == id
    ensures i.Some? ==> forall k :: 0 <= k < i.value ==> events[k].id != id
    ensures i.None? <==> forall k :: 0 <= k < |events| ==> events[k].id != id
  {
    FirstWhere(events, (e: Event) => e.id == id)
  }

  function EventId(e: Event): (id: string) {
    e.id
  }

  /** The page's component state and the requests it has sent. */
  class CalendarPage {
    var events: seq<Event>
    var openDialog: bool
    var startDate: Option<int>
    var courtId: string
    /** The insert and delete requests issued so far, oldest first. */
    var mutations: seq<Mutation>

    constructor ()
      ensures events == [] && !openDialog && startDate == None && courtId == "" && mutations == []
    {
      events, openDialog, startDate, courtId, mutations := [], false, None, "", [];
    }

    /** Refreshes the events from the reservation query once it has data. */
    method LoadEvents(data: Option<seq<ReservationWithUser>>)
      modifies this
      ensures events == if data.Some? then ToEvents(data.value) else old(events)
      ensures data.Some? ==> |events| == |data.value|
      ensures openDialog == old(openDialog) && startDate == old(startDate) && courtId == old(courtId)
      ensures mutations == old(mutations)
    {
      if data.Some? {
        events := ToEvents(data.value);
      }
    }

    /** A click on a free slot: remember the court and the start and open the booking dialog;
        a click outside any court's column fails and changes nothing. */
    method AddEventOnClick(click: DateClick) returns (r: Result<(), CalendarError>)
      modifies this
      ensures click.resource.None? ==> r == Err(NoCourtSelected) && openDialog == old(openDialog)
                                       && startDate == old(startDate) && courtId == old(courtId)
      ensures click.resource.Some? ==> r.Ok? && openDialog && startDate == Some(click.date)
                                       && courtId == click.resource.value.id
      ensures events == old(events) && mutations == old(mutations)
    {
      if click.resource.None? {
        return Err(NoCourtSelected);
      }
      courtId := click.resource.value.id;
      startDate := Some(click.date);
      openDialog := true;
      r := Ok(());
    }

    /** The booking dialog closed with `endDate`: close it, and request the reservation when a start is known. */
    method HandleDialogClose(endDate: int)
      modifies this
      ensures !openDialog
      ensures mutations == old(mutations) +
                (if old(startDate).Some? then [InsertReservation(old(courtId), old(startDate).value, endDate)] else [])
      ensures events == old(events) && startDate == old(startDate) && courtId == old(courtId)
    {
      openDialog := false;
      if startDate.Some? {
        mutations := mutations + [InsertReservation(courtId, startDate.value, endDate)];
      }
    }

    /** A click on an event: remove it from the calendar and request its deletion;
        an id the calendar does not hold changes nothing. */
    method DeleteEvent(id: string)
      modifies this
      ensures FindEvent(old(events), id).None? ==> events == old(events) && mutations == old(mutations)
      ensures FindEvent(old(events), id).Some? ==>
                var k := FindEvent(old(events), id).value;
                events == old(events)[..k] + old(events)[k + 1..] &&
                mutations == old(mutations) + [DeleteReservation(id)]
      ensures DistinctBy(old(events), EventId) ==> forall k :: 0 <= k < |events| ==> events[k].id != id
      ensures |events| == |old(events)| - (if FindEvent(old(events), id).Some? then 1 else 0)
      ensures openDialog == old(openDialog) && startDate == old(startDate) && courtId == old(courtId)
    {
      var found := FindEvent(events, id);
      if found.None? {
        return;
      }
      var k := found.value;
      ghost var before := events;
      events := events[..k] + events[k + 1..];
      mutations := mutations + [DeleteReservation(id)];
      forall m | 0 <= m < |events| && DistinctBy(before, EventId)
        ensures events[m].id != id
      {
        if m < k { assert events[m] == before[m]; } else { assert events[m] == before[m + 1]; }
      }
    }
  }

  /** The freshly booked slot of the end-to-end test shows as exactly one event on its court. */
  lemma OneBookingOneEvent(r: Reservation, userName: Option<string>)
    ensures var es := ToEvents([ReservationWithUser(r, userName)]);
            |es| == 1 && es[0].resourceId == r.courtId && es[0].start == r.start && es[0].end == r.end
  {
  }
}
