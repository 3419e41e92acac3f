/** Shared vocabulary of the health tracker model: optional values, the clock
    and the text that Python's `str()` makes of a provider's numeric id. */
module Base {

  /** A value that may be missing: Python's `None`, an absent JSON key, a NULL column. */
  datatype Option<+T> = None | Some(value: T) {
    /** The value, or `default` when there is none (`dict.get(key, default)`). */
    function GetOr(default: T): (r: T)
      ensures Some? ==> r == value
      ensures None? ==> r == default
    {
      match this
      case Some(v) => v
      case None => default
    }
  }

  /** A point in time: whole seconds since 0001-01-01 00:00 local time. */
  type Instant = int

  /** A calendar day as its proleptic Gregorian ordinal (0001-01-01 is day 1),
      the number Python's `date.toordinal()` gives. */
  type Day = int

  type UserId = int

  const SecondsPerDay: int := 86400

  /** `datetime.now().date()`: the day an instant falls on. */
  function DayOf(t: Instant): Day {
    t / SecondsPerDay + 1
  }

  /** An instant moved by a number of whole days (`t - timedelta(days=n)` for negative n). */
  function AddDays(t: Instant, n: int): Instant {
    t + n * SecondsPerDay
  }

  /** The text Python's `str()` gives for an integer id or for `None`;
      kept symbolic, since only equality of such texts is ever used. */
  datatype IdText = IntText(n: int) | NoneText

  /** `str(v)` for a value that may be missing. */
  function TextOf(v: Option<int>): (r: IdText)
    ensures v.Some? <==> r.IntText?
    ensures v.Some? ==> r.n == v.value
  {
    match v
    case Some(n) => IntText(n)
    case None => NoneText
  }
}
