/** `DateTime` values as .NET ticks (100 ns units). The clock is never read by
    the model: the current time is always a parameter. */
module Time {

  /** `default(DateTime)`, which is `DateTime.MinValue`. */
  const DefaultDateTime: int := 0

  const TicksPerHour: int := 36_000_000_000
  const TicksPerDay: int := 24 * TicksPerHour

  /** `t.AddHours(h)` */
  function AddHours(t: int, h: int): int {
    t + h * TicksPerHour
  }

  /** `t.AddDays(d)` */
  function AddDays(t: int, d: int): int {
    t + d * TicksPerDay
  }
}
