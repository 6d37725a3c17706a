/**
 * The calendar conversions the program asks of its date library, reduced to
 * what the program depends on: an instant is a whole number of nanoseconds
 * since the Unix epoch (UTC), and a conversion succeeds exactly when the
 * instant lies within the library's supported range of dates, the years -9999
 * to 9999.
 */
module Calendar {
  import opened Wrappers

  const NanosPerSecond: int := 1_000_000_000

  /** -9999-01-01 00:00:00 UTC and 9999-12-31 23:59:59 UTC, in Unix seconds. */
  const MinUnixSeconds: int := -377_705_116_800
  const MaxUnixSeconds: int := 253_402_300_799

  /** The range error the library reports, carrying the offending second count. */
  datatype ComponentRange = ComponentRange(value: int)

  /** Nanoseconds since the epoch. */
  type Instant = int

  predicate InCalendarRange(seconds: int) {
    MinUnixSeconds <= seconds <= MaxUnixSeconds
  }

  /** `OffsetDateTime::from_unix_timestamp`: a second count to an instant. */
  function FromUnixTimestamp(seconds: int): (r: Result<Instant, ComponentRange>)
    ensures r.Success? <==> InCalendarRange(seconds)
    ensures r.Success? ==> r.value == seconds * NanosPerSecond
    ensures r.Failure? ==> r.error.value == seconds
  {
    if InCalendarRange(seconds) then Success(seconds * NanosPerSecond)
    else Failure(ComponentRange(seconds))
  }

  /** `OffsetDateTime::from_unix_timestamp_nanos`: the whole-second part (rounded
      toward negative infinity) is checked as a second count, and the instant
      is the nanosecond count itself. */
  function FromUnixTimestampNanos(nanos: int): (r: Result<Instant, ComponentRange>)
    ensures r.Success? <==>
              MinUnixSeconds * NanosPerSecond <= nanos <= MaxUnixSeconds * NanosPerSecond + (NanosPerSecond - 1)
    ensures r.Success? ==> r.value == nanos
  {
    var seconds := nanos / NanosPerSecond;
    FloorDivBounds(nanos);
    if InCalendarRange(seconds) then Success(nanos) else Failure(ComponentRange(seconds))
  }

  lemma FloorDivBounds(nanos: int)
    ensures nanos / NanosPerSecond >= MinUnixSeconds <==> nanos >= MinUnixSeconds * NanosPerSecond
    ensures nanos / NanosPerSecond <= MaxUnixSeconds <==> nanos <= MaxUnixSeconds * NanosPerSecond + (NanosPerSecond - 1)
  {
    var q := nanos / NanosPerSecond;
    assert nanos == q * NanosPerSecond + nanos % NanosPerSecond;
    assert 0 <= nanos % NanosPerSecond < NanosPerSecond;
    if q >= MinUnixSeconds {
      assert q * NanosPerSecond >= MinUnixSeconds * NanosPerSecond;
    } else {
      assert q <= MinUnixSeconds - 1;
      assert q * NanosPerSecond <= (MinUnixSeconds - 1) * NanosPerSecond;
    }
    if q <= MaxUnixSeconds {
      assert q * NanosPerSecond <= MaxUnixSeconds * NanosPerSecond;
    } else {
      assert q >= MaxUnixSeconds + 1;
      assert q * NanosPerSecond >= (MaxUnixSeconds + 1) * NanosPerSecond;
    }
  }

  /** Converting a second count directly, or as that many whole seconds of
      nanoseconds, gives the same outcome, errors included. */
  lemma SecondsAgreeWithNanos(seconds: int)
    ensures FromUnixTimestamp(seconds) == FromUnixTimestampNanos(seconds * NanosPerSecond)
  {
    assert (seconds * NanosPerSecond) / NanosPerSecond == seconds;
  }

  /** A whole-second instant inside the calendar survives the round trip
      through its second count. */
  lemma SecondsRoundTrip(now: Instant)
    requires now % NanosPerSecond == 0
    requires InCalendarRange(now / NanosPerSecond)
    ensures FromUnixTimestamp(now / NanosPerSecond) == Success(now)
  {
    assert now == (now / NanosPerSecond) * NanosPerSecond + now % NanosPerSecond;
  }
}
