/**
 * The end-time field of the reservation dialog and the two store slots it
 * writes on every edit: the chosen end (none once the field is cleared) and
 * the error flag. The flag always equals "the current end is rejected by the
 * slot rules", and the component tests' edit sequences follow from that.
 */
module ReserveDialogEndDate {
  import opened Wrappers
  import opened Clock
  import opened Slots

  class EndDateField {
    const start: int
    const settings: ClubSettings
    const isAdmin: bool
    const now: int
    var endDate: Option<int>
    var endDateError: bool

    /** The error slot agrees with the slot rules applied to the end slot. */
    ghost predicate Valid()
      reads this
    {
      endDateError == Validate(start, endDate, settings, isAdmin, now).Rejected?
    }

    /** The field as mounted: the default end, with its error state. */
    constructor (start: int, settings: ClubSettings, isAdmin: bool, now: int)
      ensures Valid()
      ensures this.start == start && this.settings == settings && this.isAdmin == isAdmin && this.now == now
      ensures endDate == Some(DefaultEnd(start))
    {
      this.start := start;
      this.settings := settings;
      this.isAdmin := isAdmin;
      this.now := now;
      endDate := Some(DefaultEnd(start));
      endDateError := Validate(start, Some(DefaultEnd(start)), settings, isAdmin, now).Rejected?;
    }

    /** Clearing the field: the end becomes none and the error is raised. */
    method Clear()
      modifies this
      ensures Valid()
      ensures endDate == None && endDateError
    {
      endDate := None;
      endDateError := true;
    }

    /** Typing a complete time `t`: the end becomes `t` and the error reflects the rules. */
    method Type(t: int)
      modifies this
      ensures Valid()
      ensures endDate == Some(t)
      ensures endDateError <==> !Bookable(start, t, settings, isAdmin, now)
    {
      endDate := Some(t);
      endDateError := Validate(start, endDate, settings, isAdmin, now).Rejected?;
    }
  }

  // The component tests: a user session, the start at 12:00 on `day`
  // (tomorrow, so not in the past), the club's last bookable time 22:00.

  /** Clearing a valid end sets the end to none and the error to true. */
  method ClearSetsError(day: int, hoursBeforeCancel: int, now: int) returns (endDate: Option<int>, error: bool)
    ensures endDate == None && error
  {
    var field := new EndDateField(At(day, 12, 0), ClubSettings(22, 0, hoursBeforeCancel), false, now);
    field.Clear();
    endDate, error := field.endDate, field.endDateError;
  }

  /** From a cleared field, typing 14:00 clears the error. */
  method TypeValidAfterClear(day: int, hoursBeforeCancel: int, now: int) returns (cleared: bool, typed: bool)
    requires now <= At(day, 12, 0)
    ensures cleared && !typed
  {
    var field := new EndDateField(At(day, 12, 0), ClubSettings(22, 0, hoursBeforeCancel), false, now);
    field.Clear();
    cleared := field.endDateError;
    AtParts(day, 12, 0);
    AtParts(day, 14, 0);
    field.Type(At(day, 14, 0));
    typed := field.endDateError;
  }

  /** Typing 13:01 raises the error; replacing it with 13:00 clears it. */
  method OffSlotThenOnSlot(day: int, hoursBeforeCancel: int, now: int) returns (offSlot: bool, onSlot: bool)
    requires now <= At(day, 12, 0)
    ensures offSlot && !onSlot
  {
    var field := new EndDateField(At(day, 12, 0), ClubSettings(22, 0, hoursBeforeCancel), false, now);
    field.Clear();
    AtParts(day, 12, 0);
    AtParts(day, 13, 1);
    AtParts(day, 13, 0);
    field.Type(At(day, 13, 1));
    offSlot := field.endDateError;
    field.Clear();
    field.Type(At(day, 13, 0));
    onSlot := field.endDateError;
  }

  /** Clearing after an invalid entry leaves the error raised. */
  method ClearAfterInvalid(day: int, hoursBeforeCancel: int, now: int) returns (error: bool)
    ensures error
  {
    var field := new EndDateField(At(day, 12, 0), ClubSettings(22, 0, hoursBeforeCancel), false, now);
    field.Clear();
    field.Type(At(day, 13, 1));
    field.Clear();
    field.Clear();
    error := field.endDateError;
  }
}
