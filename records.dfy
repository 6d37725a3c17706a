/**
 * The per-hypothesis record: for one unit, the signed distance of its instant
 * from "now" when the conversion succeeded, and the text the report shows.
 */
module Records {
  import opened Wrappers
  import opened Calendar
  import opened Units
  import opened Strings

  /**
   * The library services the record text depends on and this model takes as
   * given: the humanized form of a duration in nanoseconds, the date format of
   * an instant seen at an offset in seconds from UTC, and the display text of
   * a calendar range error.
   */
  datatype Library = Library(
    humanize: nat -> string,
    formatDate: (Instant, int) -> string,
    rangeText: ComponentRange -> string)

  /** `Data`: one hypothesis, resolved (`delta` present) or not. */
  datatype Data = Data(delta: Option<int>, description: string, unit: string)

  /** `DataWithDelta`: a resolved hypothesis. */
  datatype DataWithDelta = DataWithDelta(delta: int, description: string, unit: string)

  function Abs(x: int): nat {
    if x < 0 then -x else x
  }

  /** "in <duration>" for an instant after now, "<duration> ago" otherwise,
      a zero distance included. */
  function RelativePhrase(lib: Library, delta: int): (r: string)
    ensures delta > 0 ==> r == "in " + lib.humanize(Abs(delta))
    ensures delta <= 0 ==> r == lib.humanize(Abs(delta)) + " ago"
  {
    var positive := delta > 0;
    (if positive then "in " else "") + lib.humanize(Abs(delta)) + (if positive then "" else " ago")
  }

  /** An instant and the same instant ahead of now by the same distance read
      the same duration, one with "in " in front and the other with " ago" after. */
  lemma RelativePhraseSymmetric(lib: Library, d: nat)
    requires d > 0
    ensures RelativePhrase(lib, d) == "in " + lib.humanize(d)
    ensures RelativePhrase(lib, -(d as int)) == lib.humanize(d) + " ago"
    ensures RelativePhrase(lib, d) != RelativePhrase(lib, -(d as int))
  {
  }

  function TooLargeText(unit: string): string {
    "error: number was too large to interpret as " + unit
  }

  function RangeErrorText(lib: Library, e: ComponentRange): string {
    "error reported: \"" + lib.rangeText(e) + "\""
  }

  /** The resolved text: UTC date, local date when the offset is known, and
      the relative phrase. */
  function ResolvedText(lib: Library, instant: Instant, delta: int, offset: Option<int>): string {
    var local := if offset.Some? then " local: " + lib.formatDate(instant, offset.value) else "";
    "UTC: " + lib.formatDate(instant, 0) + local + " (" + RelativePhrase(lib, delta) + ")"
  }

  /**
   * `get_data`: a gated-out hypothesis is "too large", a failed conversion
   * shows the library's error, and a successful one is measured against the
   * single `now` shared by all four hypotheses.
   */
  function GetData(lib: Library, now: Instant, offset: Option<int>, attempt: Attempt, unit: string): (d: Data)
    ensures d.unit == unit
    ensures d.delta.Some? <==> attempt.Some? && attempt.value.Success?
    ensures attempt.Some? && attempt.value.Success? ==> d.delta == Some(attempt.value.value - now)
  {
    match attempt
    case None => Data(None, TooLargeText(unit), unit)
    case Some(Failure(e)) => Data(None, RangeErrorText(lib, e), unit)
    case Some(Success(instant)) =>
      var duration := instant - now;
      Data(Some(duration), ResolvedText(lib, instant, duration, offset), unit)
  }

  /**
   * The three outcomes can be told apart by their text: only the unresolved
   * ones start with "error", the "too large" one is its own message ending
   * with the unit label, the failed conversion shows the library's error, and the resolved one starts
   * with its UTC date and ends with the relative phrase in parentheses.
   */
  lemma GetDataDescription(lib: Library, now: Instant, offset: Option<int>, attempt: Attempt, unit: string)
    ensures var d := GetData(lib, now, offset, attempt, unit);
            StartsWith(d.description, "error") <==> d.delta.None?
    ensures attempt.None? ==>
              && StartsWith(GetData(lib, now, offset, attempt, unit).description,
                            "error: number was too large to interpret as ")
              && !StartsWith(GetData(lib, now, offset, attempt, unit).description, "error reported: ")
              && EndsWith(GetData(lib, now, offset, attempt, unit).description, unit)
    ensures attempt.Some? && attempt.value.Failure? ==>
              StartsWith(GetData(lib, now, offset, attempt, unit).description, "error reported: ")
    ensures attempt.Some? && attempt.value.Success? ==>
              && StartsWith(GetData(lib, now, offset, attempt, unit).description,
                            "UTC: " + lib.formatDate(attempt.value.value, 0))
              && EndsWith(GetData(lib, now, offset, attempt, unit).description,
                          "(" + RelativePhrase(lib, attempt.value.value - now) + ")")
  {
    match attempt
    case None => TooLargeShape(unit);
    case Some(Failure(e)) => RangeErrorShape(lib, e);
    case Some(Success(instant)) => ResolvedShape(lib, instant, instant - now, offset);
  }

  lemma TooLargeShape(unit: string)
    ensures StartsWith(TooLargeText(unit), "error: number was too large to interpret as ")
    ensures StartsWith(TooLargeText(unit), "error") && EndsWith(TooLargeText(unit), unit)
    ensures !StartsWith(TooLargeText(unit), "error reported: ")
  {
    var head := "error: number was too large to interpret as ";
    Leads(head, unit);
    assert TooLargeText(unit)[5] == head[5] == ':';
    assert "error reported: "[5] == ' ';
    Trails(head, unit);
    ShorterPrefix(TooLargeText(unit), "error", head[5..]);
  }

  lemma RangeErrorShape(lib: Library, e: ComponentRange)
    ensures StartsWith(RangeErrorText(lib, e), "error reported: ") && StartsWith(RangeErrorText(lib, e), "error")
  {
    var head := "error reported: ";
    var rest := "\"" + lib.rangeText(e) + "\"";
    assert RangeErrorText(lib, e) == head + rest;
    Leads(head, rest);
    ShorterPrefix(RangeErrorText(lib, e), "error", head[5..]);
  }

  lemma ResolvedShape(lib: Library, instant: Instant, delta: int, offset: Option<int>)
    ensures StartsWith(ResolvedText(lib, instant, delta, offset), "UTC: " + lib.formatDate(instant, 0))
    ensures EndsWith(ResolvedText(lib, instant, delta, offset), "(" + RelativePhrase(lib, delta) + ")")
    ensures !StartsWith(ResolvedText(lib, instant, delta, offset), "error")
  {
    var s := ResolvedText(lib, instant, delta, offset);
    var date := "UTC: " + lib.formatDate(instant, 0);
    var local := if offset.Some? then " local: " + lib.formatDate(instant, offset.value) else "";
    var tail := "(" + RelativePhrase(lib, delta) + ")";
    assert s == date + (local + " " + tail);
    Leads(date, local + " " + tail);
    assert s == (date + local + " ") + tail;
    Trails(date + local + " ", tail);
    ShorterPrefix(s, "UTC: ", lib.formatDate(instant, 0));
    assert s[..5] == "UTC: ";
  }

  /** Without a known offset the description is the UTC date and the phrase
      alone. */
  lemma LocalSegmentOnlyWithOffset(lib: Library, now: Instant, instant: Instant, unit: string)
    ensures GetData(lib, now, None, Some(Success(instant)), unit).description ==
            "UTC: " + lib.formatDate(instant, 0) + " (" + RelativePhrase(lib, instant - now) + ")"
  {
  }

  /** With a known offset the local date, after " local: ", stands between the
      UTC date and the phrase. */
  lemma LocalSegmentWithOffset(lib: Library, now: Instant, instant: Instant, off: int, unit: string)
    ensures GetData(lib, now, Some(off), Some(Success(instant)), unit).description ==
            "UTC: " + lib.formatDate(instant, 0) + " local: " + lib.formatDate(instant, off) +
            " (" + RelativePhrase(lib, instant - now) + ")"
  {
  }

  /** The whole-second instant taken as "now", fed back through the seconds
      hypothesis, resolves to itself at distance zero and reads "ago". */
  lemma NowIsZeroDistance(lib: Library, now: Instant, offset: Option<int>, unit: string)
    requires now % NanosPerSecond == 0 && InCalendarRange(now / NanosPerSecond)
    ensures GetData(lib, now, offset, Some(FromUnixTimestamp(now / NanosPerSecond)), unit).delta == Some(0)
    ensures RelativePhrase(lib, 0) == lib.humanize(0) + " ago"
  {
    SecondsRoundTrip(now);
  }
}
