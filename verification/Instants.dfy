/** Moments of Asia/Shanghai wall-clock time, the only timezone the program bills in.
    A day is always 24 hours there, so a moment is a day number and a nanosecond within that day. */
module Instants {

  const NANOS_PER_DAY: int := 86_400_000_000_000

  type Nanos = n: int | 0 <= n < NANOS_PER_DAY

  datatype Option<+T> = None | Some(value: T)

  datatype Instant = Instant(day: int, nanos: Nanos) {

    predicate Before(other: Instant) {
      day < other.day || (day == other.day && nanos < other.nanos)
    }

    function AddDays(days: int): Instant {
      Instant(day + days, nanos)
    }

    /** One nanosecond earlier. */
    function JustBefore(): (earlier: Instant)
      ensures earlier.Before(this)
      ensures forall other: Instant :: other.Before(this) ==> !earlier.Before(other)
    {
      if nanos > 0 then Instant(day, nanos - 1) else Instant(day - 1, NANOS_PER_DAY - 1)
    }

    /** Nanoseconds elapsed since another moment. */
    function Since(other: Instant): int {
      (day - other.day) * NANOS_PER_DAY + (nanos - other.nanos)
    }
  }

  function Midnight(day: int): Instant {
    Instant(day, 0)
  }
}
