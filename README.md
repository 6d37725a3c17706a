# readtimestamp, modelled in Dafny

`readtimestamp` is a command-line tool. It takes one argument, a Unix
timestamp, without knowing its unit. It prints how that number reads as
seconds, milliseconds, microseconds and nanoseconds since the epoch, each
as a UTC date (and a local one when the time zone is known) with a
relative phrase such as "in 3 days" or "5 minutes ago". The reading
nearest to now is ranked first, as the "Best candidate unit".

This project models the whole pipeline of `src/main.rs`:

- candidate extraction: the all-digits fast path with its 21-digit limit,
  and otherwise the longest eligible run of digits;
- the `i128` parse with the standard library's error kinds;
- the unit hypotheses: nanoseconds always, the other three units only for
  values that fit `i64`, scaled in `i128`;
- the time library's calendar range check;
- `get_data` and its three outcomes;
- the partition into resolved and unresolved records;
- the stable sort by distance from now, as the in-place insertion sort that
  the standard library runs on slices this short;
- the layout of the printed report;
- the diagnostic messages.

The modules follow the program's stages:

- `Digits`: digit runs, the stand-in for the regex `[0-9]+`.
- `Integers`: the `i128` parse.
- `Diagnostics`: the messages.
- `Extraction`: the two scanning loops.
- `Calendar`: the range of `OffsetDateTime`.
- `Units`: unit names, padding and the hypotheses.
- `Records`: `get_data`.
- `Ranking`: the partition and the sort.
- `Presentation`: the report lines.
- `Report`: `main` end to end.

Instants and durations are integer nanoseconds. The clock (`now`) and the
local offset lookup (`localOffset`) are parameters of `ReadTimestamp`. The
duration humanizer, the date formatter and the display text of a calendar
range error are opaque functions, taken as the parameter `lib: Library`.

Two edge cases of the code, as modelled:

- There is no cap on the magnitude beyond the 21-digit limit on candidates,
  so every non-empty candidate parses; each unit hypothesis is then limited only by
  the time library's calendar range check.
- An empty argument counts as "all digits" on the fast path, with zero
  digits. It then fails the integer parse with the "empty string" error
  and prints no report.

## Model

| member | source | states |
|---|---|---|
| Extraction.ScanNumeric | src/main.rs:74-85 | the input counts as numeric exactly when every character is an ASCII digit; the counted digits are the leading digit prefix, and all of the input when it is numeric |
| Extraction.SelectLongestRun | src/main.rs:111-126 | the count equals the number of maximal digit runs of length at most 21; no run is chosen exactly when that count is zero; a chosen run is a maximal run of at most 21 digits, no eligible run is longer, and no earlier eligible run has the same length |
| Extraction.ExtractCandidate | src/main.rs:73-146 | a numeric input longer than 21 digits is rejected with the too-long error; a numeric input of at most 21 digits is itself the candidate, with no note; otherwise the non-digit note is given, and then either the no-candidate error or the chosen run, with the "N possible timestamps" note exactly when more than one run is eligible |
| Extraction.CandidateShape | src/main.rs:118-138 | the chosen run lies inside the input and its text is 1 to 21 ASCII digits |
| Extraction.EligibleCountZero | src/main.rs:115-126 | the eligible count is zero exactly when no run has at most 21 digits |
| Extraction.ChosenRunUnique | src/main.rs:121-124 | the selection rule picks at most one run |
| Digits.DigitRunsCorrect | src/main.rs:109-115 | the runs found are maximal runs of digits, pairwise separated and in left-to-right order, and every digit of the input lies in one of them |
| Digits.AllDigitsRuns | src/main.rs:109-115 | an all-digit input is one run covering the whole input, or no run when it is empty |
| Integers.ParseI128 | src/main.rs:148 | a successful parse lies in the `i128` range; the parse fails with the empty-string kind exactly when the input is empty |
| Integers.DigitsParse | src/main.rs:148 | a non-empty digit string parses to its decimal value when that fits `i128`, and fails with positive overflow otherwise |
| Integers.ShortDigitsParse | src/main.rs:148 | any digit string of 1 to 38 digits, so every extracted candidate, parses to its decimal value |
| Calendar.FromUnixTimestamp | src/main.rs:163 | succeeds exactly for seconds inside the calendar range, giving the instant `seconds * 10^9` ns; otherwise it reports the offending value |
| Calendar.FromUnixTimestampNanos | src/main.rs:152-162 | succeeds exactly for nanosecond counts whose floor in seconds is inside the calendar range, giving that instant |
| Calendar.SecondsAgreeWithNanos | src/main.rs:152-163 | converting `s` seconds and converting `s * 10^9` nanoseconds give the same result |
| Calendar.SecondsRoundTrip | src/main.rs:163 | a whole-second instant in range converts back to itself |
| Units.MaxLength | src/main.rs:49-53 | the result is at least the length of every name and equal to the length of one of them |
| Units.LabelWidthIsTwelve | src/main.rs:49-53 | the label width over the four unit names is 12, the length of "milliseconds" |
| Units.PadToLeft | src/main.rs:42-44 | for a width at least the input's length, the result has exactly that width, ends with the input and is spaces before it |
| Units.LabelsAligned | src/main.rs:55-58 | every unit label is 12 characters and ends in its unit's name |
| Units.Interpret | src/main.rs:152-168 | nanoseconds are always attempted on the value itself; seconds, milliseconds and microseconds are attempted exactly when the value fits `i64`, then as `v` seconds, `v * 10^6` ns and `v * 10^3` ns, both products inside `i128` |
| Units.WideValueOnlyNanoseconds | src/main.rs:152-168 | a value above the `i64` range but inside the calendar in nanoseconds yields only the nanosecond reading, and that reading succeeds |
| Units.SmallerUnitsResolveFirst | src/main.rs:156-165 | for a non-negative `i64` value, if the seconds reading is in range then so is the milliseconds one, then microseconds, then nanoseconds |
| Records.RelativePhrase | src/main.rs:301-310 | a positive distance reads "in " before the humanized magnitude; zero or a negative one reads " ago" after it |
| Records.RelativePhraseSymmetric | src/main.rs:301-310 | a distance and its negation read differently, as "in X" and "X ago" |
| Records.GetData | src/main.rs:277-339 | the record keeps its unit; it carries a distance exactly when the conversion was attempted and succeeded, and that distance is the instant minus now |
| Records.GetDataDescription | src/main.rs:284-337 | the three outcomes are told apart by their text: the description starts with "error" exactly when the record has no distance; the too-large text starts with "error: number was too large to interpret as ", ends with the unit and does not start with "error reported: "; the range-error text starts with "error reported: "; a resolved text starts with "UTC: " and the UTC date and ends with the relative phrase in parentheses |
| Records.LocalSegmentOnlyWithOffset | src/main.rs:291-299 | without a local offset the description has no local-date segment |
| Records.LocalSegmentWithOffset | src/main.rs:291-299 | with a known local offset the description is the UTC date, then " local: " and the local date, then the relative phrase in parentheses |
| Records.NowIsZeroDistance | src/main.rs:287-310 | a reading equal to now has distance 0 and reads "... ago" |
| Ranking.PartitionExact | src/main.rs:205-223 | each record lands in exactly one group: the resolved group holds each record with a distance, the unresolved group each record without; the group sizes add up to the input's |
| Ranking.Partition | src/main.rs:205-223 | the loop's two groups are the resolved and unresolved records in input order |
| Ranking.StableSortedSorted | src/main.rs:233 | the sorted records are non-decreasing in distance magnitude |
| Ranking.StableSortedPermutes | src/main.rs:233 | the sorted records are a permutation of the input |
| Ranking.StableSortedStable | src/main.rs:233 | records of equal magnitude keep their relative order |
| Ranking.BestIsNearest | src/main.rs:233-239 | the first record after sorting has the smallest magnitude, and it is the earliest input record with that magnitude |
| Ranking.SortByMagnitude | src/main.rs:233 | sorting the array in place leaves it holding the stable sort of its old contents |
| Ranking.InsertTail | src/main.rs:233 | one insertion step: the prefix up to `i` becomes the old sorted prefix with `a[i]` inserted after every element of no larger magnitude, and the rest is unchanged |
| Presentation.LineText | src/main.rs:241-265 | a line prints as nothing exactly when it is blank; the header prints "Best candidate unit:"; an entry prints "(" unit ") " before its description |
| Presentation.Render | src/main.rs:225-266 | the printing loops produce exactly the report layout |
| Presentation.LayoutEntries | src/main.rs:232-266 | the report shows every record exactly once: the resolved ones in ranked order, then the unresolved ones in their fixed order |
| Presentation.LayoutBest | src/main.rs:225-255 | the header line comes first, after the leading blank line when a note was printed; then the best record, emphasized; with a second record, a blank line precedes it |
| Presentation.LayoutCounts | src/main.rs:225-266 | blank lines: one after any note, one before the second resolved record, one between non-empty groups; exactly two marked lines (the header and the best entry) when any record resolved, none otherwise |
| Diagnostics.NatToDecimal | src/main.rs:88-133 | the decimal text is non-empty digits whose value is the number, without leading zeros |
| Diagnostics.TextMarksSeverity | src/main.rs:88-272 | error messages start with "ERROR: " and notes with "NOTE: " |
| Report.ReadWhole | src/main.rs:99-266 | an all-digit input of at most 21 digits: an empty one gives the empty-string parse error and no report; otherwise the report on its value, after only the time-zone note if any |
| Report.ReadRun | src/main.rs:101-266 | an input with other characters and an eligible run: the diagnostics are the extraction notes followed by only the time-zone note, if any, and the report is on the chosen run's value |
| Report.ReadCandidate | src/main.rs:148-274 | a failed parse appends its error and prints no report; a successful one appends only the time-zone note, if any, and prints the report on the value |
| Report.ReportValue | src/main.rs:151-266 | the time-zone note, and the report on the four readings: the resolved ones ranked, then the unresolved ones, with the leading blank line when a note was printed; the report is never empty |
| Report.ReportHasEveryRecord | src/main.rs:198-266 | the report on any parsed value shows exactly four entries, and the label of each of the four units is the unit of one of them |
| Report.HypothesisUnits | src/main.rs:198-203 | the four records carry the labels of seconds, milliseconds, microseconds and nanoseconds, in that order |
| Report.RecordReported | src/main.rs:205-266 | every record, with or without a distance, gives the unit of one of the report's entries |
| Report.RankResolved | src/main.rs:232-233 | the resolved records are sorted in an array in the stable order |
| Report.ReadTimestamp | src/main.rs:60-275 | the diagnostics and the report for every kind of input; on the slow path the diagnostics are exactly the non-digit note, the "N possible timestamps" note when more than one run is eligible, then the time-zone note, and the report is on a chosen run; no report is printed exactly when an error was given |

## Left out

- Argument parsing with `clap` (src/main.rs:12-17, 60) is a library; the
  argument is the `timestamp` parameter.
- The banner line "Attempting to parse ..." and its dashes (src/main.rs:64-69)
  is presentation only. Its dash count includes the bytes of the bold
  styling, which depends on the terminal library.
- Colours and bold styling (`owo_colors`) are not modelled. Lines record only
  whether an entry is the emphasized best one.
- Writing to standard output and standard error is not modelled. The model
  returns the report lines and the diagnostics as values.
- The regex engine is not modelled. It is replaced by the specified function
  of maximal digit runs, `Digits.DigitRuns`.
- The internals of the `time` crate are opaque: date formatting, `to_offset`
  and the display text of a range error. The calendar range is taken as the
  crate's default, years -9999 to 9999 (Unix seconds -377705116800 to
  253402300799), in `Calendar`.
- The `timeago` humanizer and its settings (src/main.rs:188-196) are not
  modelled. It is the opaque `lib.humanize` applied to the magnitude in
  nanoseconds.
- Reading the clock and the local time-zone offset (src/main.rs:170-172) is
  not modelled. Both are parameters.
- Converting an instant to the local offset (`to_offset`, src/main.rs:291-294)
  is modelled as total, inside the opaque `lib.formatDate`. The time library
  panics when the local date-time leaves its calendar range. Only the upper
  edge can be reached, for example the input "253402300799" read as seconds
  at a positive local offset: every candidate is a digit string, so every
  instant is at or after 1970-01-01 UTC. For those inputs the program
  crashes, and the model's
  report (`Report.ReportValue`, `Report.ReadTimestamp`) is the one it would
  print had the conversion succeeded.
- The `unwrap` calls on regex construction and date formatting are fatal
  paths that do not occur.
- Records.GetData: its own contract states only the unit and the distance.
  The description texts of its three outcomes are stated in
  `Records.GetDataDescription`.
