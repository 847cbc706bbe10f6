/** Shared vocabulary of the model: identifiers, dates, optional values and results.

    Row identifiers are the database's auto-increment keys, which start at 1; so an id is
    "truthy" in the source exactly when it is present. Calendar dates are day numbers and
    timestamps are seconds; the clock is always an explicit parameter. */
module Common {

  /** A primary key as the database hands them out: a positive integer. */
  type Id = x: nat | 0 < x witness 1

  /** A calendar date, as a day number. */
  type Day = int

  /** A point in time, in seconds. */
  type Instant = int

  const SecondsPerDay: int := 86400
  const SecondsPerHour: int := 3600

  /** The calendar date of an instant (`datetime.date()`): floor division by the day length. */
  function DateOf(t: Instant): Day
  {
    t / SecondsPerDay
  }

  datatype Option<+T> = None | Some(value: T)

  datatype Result<+T, +E> = Ok(value: T) | Err(error: E)

  datatype Outcome<+E> = Pass | Fail(error: E)

  /** The HTTP-level outcome of a failed request. */
  datatype ApiError =
    | BadRequest
    | Forbidden
    | NotFound
    | ServerError

  /** Splitting a finite set by a predicate: the two halves add up to the whole. */
  lemma SplitCount<T>(s: set<T>, p: T -> bool)
    ensures |set x | x in s && p(x)| + |set x | x in s && !p(x)| == |s|
  {
    var a := set x | x in s && p(x);
    var b := set x | x in s && !p(x);
    assert a + b == s;
    assert a * b == {};
  }
}
