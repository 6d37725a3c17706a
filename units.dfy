/**
 * The four unit hypotheses: their names, the right-aligned labels the report
 * prints them with, and how a parsed value is turned into one calendar
 * conversion per unit.
 */
module Units {
  import opened Wrappers
  import opened Integers
  import opened Calendar

  const Seconds: string := "seconds"
  const Milliseconds: string := "milliseconds"
  const Microseconds: string := "microseconds"
  const Nanoseconds: string := "nanoseconds"

  /** The unit names in the order the label width is computed over. */
  const UnitNames: seq<string> := [Seconds, Milliseconds, Microseconds, Nanoseconds]

  /** The length of the longest string of a non-empty list. */
  function MaxLength(names: seq<string>): (m: nat)
    requires names != []
    ensures forall k :: 0 <= k < |names| ==> |names[k]| <= m
    ensures exists k :: 0 <= k < |names| && |names[k]| == m
  {
    if |names| == 1 then |names[0]|
    else
      var rest := MaxLength(names[1..]);
      assert forall k :: 1 <= k < |names| ==> names[k] == names[1..][k - 1];
      if |names[0]| > rest then |names[0]| else rest
  }

  /** The width every unit label is padded to. */
  function LabelWidth(): nat {
    MaxLength(UnitNames)
  }

  lemma LabelWidthIsTwelve()
    ensures LabelWidth() == 12
  {
    var m := MaxLength(UnitNames);
    var k :| 0 <= k < 4 && |UnitNames[k]| == m;
    assert |UnitNames[1]| == 12 <= m;
  }

  /** Right-aligns `input` in a field of `width` characters by prefixing spaces. */
  function PadToLeft(width: nat, input: string): (r: string)
    requires width >= |input|
    ensures |r| == width
    ensures r[width - |input|..] == input
    ensures forall k :: 0 <= k < width - |input| ==> r[k] == ' '
  {
    Spaces(width - |input|) + input
  }

  function Spaces(n: nat): (r: string)
    ensures |r| == n && forall k :: 0 <= k < n ==> r[k] == ' '
  {
    if n == 0 then [] else Spaces(n - 1) + [' ']
  }

  /** The label a unit is reported under. */
  function Label(name: string): (r: string)
    requires name in UnitNames
    ensures |r| == LabelWidth()
  {
    NameFitsWidth(name);
    PadToLeft(LabelWidth(), name)
  }

  lemma NameFitsWidth(name: string)
    requires name in UnitNames
    ensures |name| <= LabelWidth()
  {
    var k :| 0 <= k < |UnitNames| && UnitNames[k] == name;
  }

  /** All four labels have the same width and end in their unit's name, so the
      report's unit column lines up on the right. */
  lemma LabelsAligned(name: string)
    requires name in UnitNames
    ensures |Label(name)| == 12
    ensures Label(name)[12 - |name|..] == name
  {
    LabelWidthIsTwelve();
  }

  /** A conversion that the unit gate either skipped (`None`) or ran (`Some`). */
  type Attempt = Option<Result<Instant, ComponentRange>>

  /** The outcome of each unit hypothesis for one parsed value. */
  datatype Hypotheses = Hypotheses(
    seconds: Attempt,
    milliseconds: Attempt,
    microseconds: Attempt,
    nanoseconds: Attempt)

  const MicrosToNanos: int := 1_000
  const MillisToNanos: int := 1_000_000

  /**
   * Every hypothesis for a parsed i128 value `v`. Nanoseconds are always tried;
   * the other three only when `v` also fits in i64, and then milliseconds and
   * microseconds are scaled to nanoseconds in i128 arithmetic, which cannot
   * overflow there, while seconds are converted as seconds.
   */
  function Interpret(v: int): (h: Hypotheses)
    requires InI128(v)
    ensures h.nanoseconds == Some(FromUnixTimestampNanos(v))
    ensures h.seconds.Some? == InI64(v) && h.milliseconds.Some? == InI64(v) && h.microseconds.Some? == InI64(v)
    ensures InI64(v) ==> InI128(v * MicrosToNanos) && InI128(v * MillisToNanos)
    ensures InI64(v) ==> h.seconds == Some(FromUnixTimestamp(v))
    ensures InI64(v) ==> h.milliseconds == Some(FromUnixTimestampNanos(v * MillisToNanos))
    ensures InI64(v) ==> h.microseconds == Some(FromUnixTimestampNanos(v * MicrosToNanos))
  {
    var nanos := Some(FromUnixTimestampNanos(v));
    if InI64(v) then
      ScaledFits(v);
      var microsForNanos := v * 1_000;
      var millisForNanos := microsForNanos * 1_000;
      Hypotheses(
        Some(FromUnixTimestamp(v)),
        Some(FromUnixTimestampNanos(millisForNanos)),
        Some(FromUnixTimestampNanos(microsForNanos)),
        nanos)
    else
      Hypotheses(None, None, None, nanos)
  }

  /** The scaling toward nanoseconds of an i64 value stays inside i128. */
  lemma ScaledFits(v: int)
    requires InI64(v)
    ensures InI128(v * 1_000) && InI128(v * 1_000 * 1_000)
  {
    assert -0x8000_0000_0000_0000 * 1_000_000 <= v * 1_000_000 <= 0x7FFF_FFFF_FFFF_FFFF * 1_000_000;
  }

  /** A value beyond i64 but inside the calendar's nanosecond range is
      rejected as seconds, milliseconds and microseconds, and still resolves
      as nanoseconds. */
  lemma WideValueOnlyNanoseconds(v: int)
    requires I64Max < v <= MaxUnixSeconds * NanosPerSecond + (NanosPerSecond - 1)
    ensures Interpret(v).seconds.None? && Interpret(v).milliseconds.None? && Interpret(v).microseconds.None?
    ensures Interpret(v).nanoseconds == Some(Success(v))
  {
  }

  /** For a non-negative value, larger units reach further: if the seconds
      hypothesis is valid then so are milliseconds, microseconds and
      nanoseconds, as their instants are no later. */
  lemma SmallerUnitsResolveFirst(v: int)
    requires InI64(v) && v >= 0
    ensures Interpret(v).seconds.value.Success? ==> Interpret(v).milliseconds.value.Success?
    ensures Interpret(v).milliseconds.value.Success? ==> Interpret(v).microseconds.value.Success?
    ensures Interpret(v).microseconds.value.Success? ==> Interpret(v).nanoseconds.value.Success?
  {
    var h := Interpret(v);
    if h.seconds.value.Success? {
      assert v <= MaxUnixSeconds;
      assert v * MillisToNanos <= MaxUnixSeconds * MillisToNanos;
    }
    if h.milliseconds.value.Success? {
      assert v * MicrosToNanos <= v * MillisToNanos;
    }
    if h.microseconds.value.Success? {
      assert v <= v * MicrosToNanos;
    }
  }
}
