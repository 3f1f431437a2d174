/**
 * The reservation store: reservations with half-open [start, end) intervals
 * on courts, the clash check that keeps two reservations on one court from
 * overlapping, and the booking command that applies the slot rules and then
 * the clash check. The end-to-end booking tests close the module.
 */
module Reservations {
  import opened Wrappers
  import opened Clock
  import opened Slots
  import opened Seqs

  datatype Reservation = Reservation(id: string, courtId: string, userId: string,
                                     start: int, end: int, recurrentId: Option<string>)

  /** Two half-open intervals share at least one minute. */
  predicate Overlaps(start1: int, end1: int, start2: int, end2: int) {
    start1 < end2 && start2 < end1
  }

  /** `r` is on court `courtId` and overlaps [start, end). */
  predicate Clashes(r: Reservation, courtId: string, start: int, end: int) {
    r.courtId == courtId && Overlaps(r.start, r.end, start, end)
  }

  /** No two reservations on the same court overlap. */
  ghost predicate NoClashes(rs: seq<Reservation>) {
    forall i, j :: 0 <= i < j < |rs| ==> !Clashes(rs[i], rs[j].courtId, rs[j].start, rs[j].end)
  }

  function ReservationId(r: Reservation): (id: string) {
    r.id
  }

  /** The position of the first reservation in `rs` that clashes with [start, end) on `courtId`. */
  function FindClash(rs: seq<Reservation>, courtId: string, start: int, end: int): (i: Option<nat>)
    ensures i.Some? ==> i.value < |rs| && Clashes(rs[i.value], courtId, start, end)
    ensures i.Some? ==> forall k :: 0 <= k < i.value ==> !Clashes(rs[k], courtId, start, end)
    ensures i.None? <==> forall k :: 0 <= k < |rs| ==> !Clashes(rs[k], courtId, start, end)
  {
    FirstWhere(rs, r => Clashes(r, courtId, start, end))
  }

  /** The conflict check: some reservation on the court overlaps [start, end). */
  predicate HasConflict(courtId: string, start: int, end: int, rs: seq<Reservation>) {
    FindClash(rs, courtId, start, end).Some?
  }

  /** Intervals that only touch at a boundary do not conflict, and conflict is symmetric. */
  lemma OverlapFacts(a: int, b: int, c: int, d: int)
    ensures Overlaps(a, b, b, d) == false
    ensures Overlaps(a, b, c, d) == Overlaps(c, d, a, b)
  {
  }

  /** Taking one reservation out keeps the store free of clashes. */
  lemma {:induction false} RemoveAtKeepsNoClashes(rs: seq<Reservation>, k: nat)
    requires k < |rs| && NoClashes(rs) && DistinctBy(rs, ReservationId)
    ensures NoClashes(rs[..k] + rs[k + 1..]) && DistinctBy(rs[..k] + rs[k + 1..], ReservationId)
  {
    var out := rs[..k] + rs[k + 1..];
    forall i, j | 0 <= i < j < |out|
      ensures !Clashes(out[i], out[j].courtId, out[j].start, out[j].end) && out[i].id != out[j].id
    {
      var i' := if i < k then i else i + 1;
      var j' := if j < k then j else j + 1;
      assert out[i] == rs[i'] && out[j] == rs[j'] && i' < j';
    }
  }

  class ReservationTable {
    var reservations: seq<Reservation>

    ghost predicate Valid()
      reads this
    {
      NoClashes(reservations) && DistinctBy(reservations, ReservationId)
    }

    constructor ()
      ensures Valid() && reservations == []
    {
      reservations := [];
    }

    /** Stores a reservation unless it clashes with one on the same court.
        `id` is the fresh identifier the store generates for the new row. */
    method Add(id: string, courtId: string, userId: string, start: int, end: int)
      returns (r: Result<Reservation, ReservationError>)
      requires Valid()
      requires forall k :: 0 <= k < |reservations| ==> reservations[k].id != id
      modifies this
      ensures Valid()
      ensures var row := Reservation(id, courtId, userId, start, end, None);
              if HasConflict(courtId, start, end, old(reservations))
              then r == Err(Conflict) && reservations == old(reservations)
              else r == Ok(row) && reservations == old(reservations) + [row]
    {
      if FindClash(reservations, courtId, start, end).Some? {
        r := Err(Conflict);
      } else {
        var row := Reservation(id, courtId, userId, start, end, None);
        reservations := reservations + [row];
        r := Ok(row);
      }
    }

    /** The booking command: the slot rules first, then the clash check; a
        rejected booking leaves the table as it was. */
    method Insert(id: string, courtId: string, userId: string, start: int, end: int,
                  settings: ClubSettings, isAdmin: bool, now: int)
      returns (r: Result<Reservation, ReservationError>)
      requires Valid()
      requires forall k :: 0 <= k < |reservations| ==> reservations[k].id != id
      modifies this
      ensures Valid()
      ensures r.Err? ==> reservations == old(reservations)
      ensures r.Ok? <==> Bookable(start, end, settings, isAdmin, now) && !HasConflict(courtId, start, end, old(reservations))
      ensures r.Ok? ==> (r.value == Reservation(id, courtId, userId, start, end, None)
                         && reservations == old(reservations) + [r.value])
      ensures Validate(start, Some(end), settings, isAdmin, now).Rejected? ==>
                r == Err(Validate(start, Some(end), settings, isAdmin, now).reason)
      ensures Validate(start, Some(end), settings, isAdmin, now).Accepted? && HasConflict(courtId, start, end, old(reservations)) ==>
                r == Err(Conflict)
    {
      var verdict := Validate(start, Some(end), settings, isAdmin, now);
      if verdict.Rejected? {
        r := Err(verdict.reason);
      } else {
        r := Add(id, courtId, userId, start, end);
      }
    }

    /** Deletes the reservation with identifier `id`. Where the store's delete of an
        unknown id throws, this returns `false` and changes nothing. */
    method Remove(id: string) returns (removed: bool)
      requires Valid()
      modifies this
      ensures Valid()
      ensures removed <==> exists k :: 0 <= k < |old(reservations)| && old(reservations)[k].id == id
      ensures forall k :: 0 <= k < |reservations| ==> reservations[k].id != id
      ensures forall r :: r in reservations <==> r in old(reservations) && r.id != id
    {
      var i := FirstWhere(reservations, (r: Reservation) => r.id == id);
      if i.None? {
        removed := false;
      } else {
        var k := i.value;
        RemoveAtKeepsNoClashes(reservations, k);
        reservations := reservations[..k] + reservations[k + 1..];
        removed := true;
      }
    }
  }

  // The end-to-end booking tests on one court, for a user and an administrator alike.

  /** Booking the free 11:00 slot tomorrow with the default end adds exactly one reservation. */
  method BookFreeSlot(day: int, courtId: string, userId: string, settings: ClubSettings, isAdmin: bool, now: int)
    returns (outcome: Result<Reservation, ReservationError>, count: nat)
    requires now <= At(day, 11, 0)
    requires settings.lastBookableHour * 60 + settings.lastBookableMinute >= 11 * 60
    ensures outcome.Ok? && outcome.value.start == At(day, 11, 0) && outcome.value.end == At(day, 12, 0)
    ensures count == 1
  {
    var table := new ReservationTable();
    AtParts(day, 11, 0);
    outcome := table.Insert("r1", courtId, userId, At(day, 11, 0), DefaultEnd(At(day, 11, 0)), settings, isAdmin, now);
    count := |table.reservations|;
  }

  /** With 12:00-13:00 already booked, 11:00-12:30 on the same court is refused with the
      clash error and the table keeps its one reservation. */
  method BookOverBookedSlot(day: int, courtId: string, owner: string, userId: string,
                            settings: ClubSettings, isAdmin: bool, now: int)
    returns (seeded: Result<Reservation, ReservationError>, outcome: Result<Reservation, ReservationError>, count: nat)
    requires now <= At(day, 11, 0)
    requires settings.lastBookableHour * 60 + settings.lastBookableMinute >= 11 * 60 + 30
    ensures seeded.Ok? && outcome == Err(Conflict) && count == 1
  {
    var table := new ReservationTable();
    seeded := table.Add("r1", courtId, owner, At(day, 12, 0), At(day, 13, 0));
    AtParts(day, 11, 0);
    AtParts(day, 12, 30);
    outcome := table.Insert("r2", courtId, userId, At(day, 11, 0), At(day, 12, 30), settings, isAdmin, now);
    count := |table.reservations|;
  }

  /** 11:00-12:15 is refused for its granularity, for a user and an administrator alike. */
  method BookOffSlot(day: int, courtId: string, userId: string, settings: ClubSettings, isAdmin: bool, now: int)
    returns (outcome: Result<Reservation, ReservationError>, count: nat)
    requires now <= At(day, 11, 0)
    ensures outcome == Err(BadGranularity) && count == 0
  {
    var table := new ReservationTable();
    AtParts(day, 12, 15);
    outcome := table.Insert("r1", courtId, userId, At(day, 11, 0), At(day, 12, 15), settings, isAdmin, now);
    count := |table.reservations|;
  }
}
