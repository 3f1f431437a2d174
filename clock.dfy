/**
 * Instants as whole minutes since an epoch that starts at a local midnight.
 * The calendar only ever works with hours and minutes of a day, so seconds,
 * time zones and daylight-saving changes are not represented.
 */
module Clock {

  const MinutesPerHour: int := 60
  const MinutesPerDay: int := 1440

  /** The instant `hour:minute` on day number `day`. */
  function At(day: int, hour: int, minute: int): (t: int) {
    day * MinutesPerDay + hour * MinutesPerHour + minute
  }

  /** The minute component (0..59) of an instant, as a clock shows it. */
  function MinuteOf(t: int): (m: int)
    ensures 0 <= m < MinutesPerHour
  {
    t % MinutesPerHour
  }

  /** Midnight of the day that contains `t`. */
  function DayStart(t: int): (d: int)
    ensures d <= t < d + MinutesPerDay
    ensures d % MinutesPerDay == 0
  {
    t - t % MinutesPerDay
  }

  /** Reading an instant built from a day, an hour and a minute gives back those parts. */
  lemma AtParts(day: int, hour: int, minute: int)
    requires 0 <= hour < 24 && 0 <= minute < MinutesPerHour
    ensures MinuteOf(At(day, hour, minute)) == minute
    ensures DayStart(At(day, hour, minute)) == day * MinutesPerDay
  {
    HourRemainder(day * 24 + hour, minute);
    DayRemainder(day, hour * MinutesPerHour + minute);
  }

  lemma HourRemainder(q: int, r: int)
    requires 0 <= r < 60
    ensures (q * 60 + r) % 60 == r
  {
  }

  lemma DayRemainder(q: int, r: int)
    requires 0 <= r < 1440
    ensures (q * 1440 + r) % 1440 == r
  {
  }
}
