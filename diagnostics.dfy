/**
 * The advisory and error messages the program writes to its diagnostic
 * stream, as values, with the text each one is written as (colours aside).
 */
module Diagnostics {
  import opened Digits
  import opened Integers
  import opened Strings

  const ArgumentName: string := "<TIMESTAMP>"

  datatype Diagnostic =
    | InputTooLong                       // the whole argument is digits, but too many
    | NonDigitNote                       // the argument is scanned for digit runs
    | ManyCandidatesNote(count: nat)     // more than one eligible digit run was found
    | NoCandidateError                   // no digit run is short enough
    | UnparseableError(kind: IntErrorKind)
    | NoTimeZoneNote(reason: string)     // the local offset lookup failed

  /** Notes are advisories; errors end the run without a report. */
  predicate IsError(d: Diagnostic) {
    d.InputTooLong? || d.NoCandidateError? || d.UnparseableError?
  }

  /** Decimal rendering of a natural number, as `format!("{}")` writes it. */
  function NatToDecimal(n: nat): (r: string)
    ensures r != [] && AllDigits(r) && DecimalValue(r) == n
    ensures r[0] == '0' ==> r == "0"
  {
    var last := ['0' + ((n % 10) as char)];
    if n < 10 then last else NatToDecimal(n / 10) + last
  }

  /** The displayed text of a parse failure, as the standard library words it. */
  function KindText(kind: IntErrorKind): string {
    match kind
    case Empty => "cannot parse integer from empty string"
    case InvalidDigit => "invalid digit found in string"
    case PosOverflow => "number too large to fit in target type"
    case NegOverflow => "number too small to fit in target type"
  }

  /** The message written for `d`: its marker, then what it reports. */
  function Text(d: Diagnostic): string {
    Marker(d) + Body(d)
  }

  function Marker(d: Diagnostic): string {
    if IsError(d) then "ERROR: " else "NOTE: "
  }

  function Body(d: Diagnostic): string {
    match d
    case InputTooLong =>
      ArgumentName + " is too long (more than " + NatToDecimal(MaximumNumberOfDigits) + " digits)"
    case NonDigitNote =>
      ArgumentName + " contains non-digit characters, attempting to find something that looks like a timestamp"
    case ManyCandidatesNote(count) =>
      NatToDecimal(count) + " possible timestamps were found in " + ArgumentName
      + ". Parsing the longest one that is not too long to be parsed (if two possible timestamps"
      + " of the same length were found, the first one will be parsed)."
    case NoCandidateError =>
      ArgumentName + " does not contain any possible timestamps (groups of numbers of the appropriate length)"
    case UnparseableError(kind) =>
      "Could not parse possible timestamp into a 128 bit signed integer. The number is probably too long."
      + " Error reported: \"" + KindText(kind) + "\"."
    case NoTimeZoneNote(reason) =>
      "Could not determine current time zone offset. Dates will only be displayed in UTC."
      + " Error reported: \"" + reason + "\"."
  }

  /** Every message says what it is: errors start with "ERROR: ", notes with
      "NOTE: ". The two markers differ in their first letter. */
  lemma TextMarksSeverity(d: Diagnostic)
    ensures StartsWith(Text(d), if IsError(d) then "ERROR: " else "NOTE: ")
  {
    Leads(Marker(d), Body(d));
  }
}
