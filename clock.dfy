/**
 * .NET `DateTime` and `TimeSpan` values, counted in ticks of 100 nanoseconds.
 * The clock itself (`DateTime.UtcNow`, `DateTime.Now`) is never read by the model:
 * every operation that consults it takes the current instant as a parameter.
 */
module Clock {

  import Wrappers

  /** `DateTime.MaxValue.Ticks`: the last tick of 31 December 9999. */
  const MaxTicks: int := 3155378975999999999

  /** A `DateTime`: `DateTime.MinValue` (tick 0, also `default(DateTime)`) up to `DateTime.MaxValue`. */
  type DateTime = t: int | 0 <= t <= MaxTicks

  /** `default(DateTime)`, the value FluentValidation's `NotEmpty` rejects. */
  const DefaultDateTime: DateTime := 0

  const TicksPerMinute: int := 600000000

  /** `TimeSpan.FromMinutes(m)` in ticks. */
  function FromMinutes(m: int): (span: int)
    ensures m > 0 ==> span > 0
  {
    m * TicksPerMinute
  }

  /**
   * `DateTime.Add(span)`: the instant `span` ticks after `t`, or `None` where .NET
   * throws `ArgumentOutOfRangeException` because the sum leaves the `DateTime` range.
   */
  function AddTicks(t: DateTime, span: int): (r: Wrappers.Option<DateTime>)
    ensures r.Some? <==> 0 <= t + span <= MaxTicks
    ensures r.Some? ==> r.value == t + span
  {
    if 0 <= t + span <= MaxTicks then Wrappers.Some(t + span) else Wrappers.None
  }
}
