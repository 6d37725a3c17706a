/**
 * The whole program: extraction, parse, the four hypotheses, ranking, and the
 * lines written to standard output, with the diagnostic messages written
 * beside them.
 */
module Report {
  import opened Wrappers
  import opened Digits
  import opened Integers
  import opened Diagnostics
  import opened Extraction
  import opened Calendar
  import opened Units
  import opened Records
  import opened Ranking
  import opened Presentation

  /** The four records in the fixed order seconds, milliseconds, microseconds,
      nanoseconds, each under its padded label, all measured against one `now`. */
  function HypothesisRecords(lib: Library, now: Instant, offset: Option<int>, v: int): (ds: seq<Data>)
    requires InI128(v)
    ensures |ds| == 4
  {
    RecordsOf(lib, now, offset, Interpret(v))
  }

  function RecordsOf(lib: Library, now: Instant, offset: Option<int>, h: Hypotheses): (ds: seq<Data>)
    ensures |ds| == 4
  {
    [ GetData(lib, now, offset, h.seconds, Label(Seconds)),
      GetData(lib, now, offset, h.milliseconds, Label(Milliseconds)),
      GetData(lib, now, offset, h.microseconds, Label(Microseconds)),
      GetData(lib, now, offset, h.nanoseconds, Label(Nanoseconds)) ]
  }

  /** The report for a parsed value: resolved records ranked, unresolved ones
      after them. */
  function ReportFor(lib: Library, now: Instant, offset: Option<int>, noted: bool, v: int): seq<Line>
    requires InI128(v)
  {
    var ds := HypothesisRecords(lib, now, offset, v);
    Layout(noted, StableSorted(ResolvedOf(ds)), UnresolvedOf(ds))
  }

  /** `out` is the report on the value `text` parses to, and it does parse. */
  predicate ReportsOn(lib: Library, now: Instant, localOffset: Result<int, string>, noted: bool,
                      text: string, out: seq<Line>)
  {
    ParseI128(text).Success? && out == ReportFor(lib, now, OffsetOf(localOffset), noted, ParseI128(text).value)
  }

  /** The note printed when the local offset cannot be determined. */
  function TimeZoneNote(localOffset: Result<int, string>): seq<Diagnostic> {
    if localOffset.Failure? then [NoTimeZoneNote(localOffset.error)] else []
  }

  function OffsetOf(localOffset: Result<int, string>): Option<int> {
    if localOffset.Success? then Some(localOffset.value) else None
  }

  /** The resolved part of those records, sorted with `SortByMagnitude` over an array. */
  method RankResolved(some: seq<DataWithDelta>) returns (sorted: seq<DataWithDelta>)
    ensures sorted == StableSorted(some)
  {
    if some == [] {
      return [];
    }
    var a := new DataWithDelta[|some|](i requires 0 <= i < |some| => some[i]);
    assert a[..] == some;
    SortByMagnitude(a);
    sorted := a[..];
  }

  /**
   * `main` after argument parsing. `now` and the local offset lookup are the
   * clock and time zone reads; `lib` stands for the date and duration
   * libraries. Returns the diagnostic messages and the report lines.
   */
  method ReadTimestamp(timestamp: string, lib: Library, now: Instant, localOffset: Result<int, string>)
    returns (diag: seq<Diagnostic>, out: seq<Line>)
    ensures AllDigits(timestamp) && |timestamp| > MaximumNumberOfDigits ==>
              diag == [InputTooLong] && out == []
    ensures timestamp == [] ==> diag == [UnparseableError(Empty)] && out == []
    ensures !AllDigits(timestamp) && EligibleCount(DigitRuns(timestamp)) == 0 ==>
              diag == [NonDigitNote, NoCandidateError] && out == []
    ensures AllDigits(timestamp) && 0 < |timestamp| <= MaximumNumberOfDigits ==>
              && diag == TimeZoneNote(localOffset)
              && ReportsOn(lib, now, localOffset, localOffset.Failure?, timestamp, out)
    ensures !AllDigits(timestamp) && EligibleCount(DigitRuns(timestamp)) > 0 ==>
              && diag == [NonDigitNote] + ManyCandidates(EligibleCount(DigitRuns(timestamp))) + TimeZoneNote(localOffset)
              && (exists r :: ChosenRun(timestamp, r) && r.End() <= |timestamp| &&
                    ReportsOn(lib, now, localOffset, true, RunText(timestamp, r), out))
    ensures out == [] <==> exists d :: d in diag && IsError(d)
  {
    var extraction := ExtractCandidate(timestamp);
    if extraction.Rejected? {
      diag, out := extraction.messages, [];
      assert IsError(diag[|diag| - 1]);
      return;
    }
    if AllDigits(timestamp) {
      diag, out := ReadWhole(timestamp, lib, now, localOffset);
    } else {
      diag, out := ReadRun(timestamp, extraction.text, extraction.notes, lib, now, localOffset);
    }
  }

  /** An input of digits only, short enough to be the candidate itself. */
  method ReadWhole(timestamp: string, lib: Library, now: Instant, localOffset: Result<int, string>)
    returns (diag: seq<Diagnostic>, out: seq<Line>)
    requires AllDigits(timestamp) && |timestamp| <= MaximumNumberOfDigits
    ensures timestamp == [] ==> diag == [UnparseableError(Empty)] && out == []
    ensures timestamp != [] ==>
              diag == TimeZoneNote(localOffset) && ReportsOn(lib, now, localOffset, localOffset.Failure?, timestamp, out)
    ensures out == [] <==> exists d :: d in diag && IsError(d)
  {
    if timestamp != [] {
      ShortDigitsParse(timestamp);
    }
    diag, out := ReadCandidate(timestamp, [], lib, now, localOffset);
    assert diag == [] + diag;
  }

  /** An input with other characters: the candidate is the chosen run of digits. */
  method ReadRun(timestamp: string, candidate: string, notes: seq<Diagnostic>, lib: Library, now: Instant,
                 localOffset: Result<int, string>)
    returns (diag: seq<Diagnostic>, out: seq<Line>)
    requires exists r :: ChosenRun(timestamp, r) && r.End() <= |timestamp| && candidate == RunText(timestamp, r)
    requires notes != [] && forall d :: d in notes ==> !IsError(d)
    ensures diag == notes + TimeZoneNote(localOffset)
    ensures exists r :: ChosenRun(timestamp, r) && r.End() <= |timestamp| &&
                        ReportsOn(lib, now, localOffset, true, RunText(timestamp, r), out)
    ensures out == [] <==> exists d :: d in diag && IsError(d)
  {
    ghost var chosen :| ChosenRun(timestamp, chosen) && chosen.End() <= |timestamp| &&
                        candidate == RunText(timestamp, chosen);
    CandidateShape(timestamp, chosen);
    ShortDigitsParse(candidate);
    diag, out := ReadCandidate(candidate, notes, lib, now, localOffset);
    assert ReportsOn(lib, now, localOffset, true, RunText(timestamp, chosen), out);
  }

  /** Parsing the candidate and, when it parses, reporting on its value. */
  method ReadCandidate(candidate: string, notes: seq<Diagnostic>, lib: Library, now: Instant,
                       localOffset: Result<int, string>)
    returns (diag: seq<Diagnostic>, out: seq<Line>)
    requires forall d :: d in notes ==> !IsError(d)
    ensures ParseI128(candidate).Failure? ==>
              diag == notes + [UnparseableError(ParseI128(candidate).error)] && out == []
    ensures ParseI128(candidate).Success? ==>
              && diag == notes + TimeZoneNote(localOffset)
              && ReportsOn(lib, now, localOffset, notes != [] || localOffset.Failure?, candidate, out)
    ensures out == [] <==> exists d :: d in diag && IsError(d)
  {
    var parsed := ParseI128(candidate);
    if parsed.Failure? {
      diag, out := notes + [UnparseableError(parsed.error)], [];
      assert IsError(diag[|diag| - 1]);
    } else {
      var note;
      note, out := ReportValue(lib, now, localOffset, parsed.value, notes != []);
      diag := notes + note;
      NotesHaveNoError(notes, localOffset);
    }
  }

  lemma NotesHaveNoError(notes: seq<Diagnostic>, localOffset: Result<int, string>)
    requires forall d :: d in notes ==> !IsError(d)
    ensures forall d :: d in notes + TimeZoneNote(localOffset) ==> !IsError(d)
  {
  }

  /**
   * The part of `main` after a successful parse: the time zone lookup, the
   * four records, partition, sort and printing.
   */
  method ReportValue(lib: Library, now: Instant, localOffset: Result<int, string>, v: int, hasPrintedNote: bool)
    returns (note: seq<Diagnostic>, out: seq<Line>)
    requires InI128(v)
    ensures note == TimeZoneNote(localOffset)
    ensures out == ReportFor(lib, now, OffsetOf(localOffset), hasPrintedNote || localOffset.Failure?, v)
    ensures out != []
  {
    var noted := hasPrintedNote;
    var h := Interpret(v);
    var offset: Option<int>;
    note := [];
    if localOffset.Success? {
      offset := Some(localOffset.value);
    } else {
      note := [NoTimeZoneNote(localOffset.error)];
      noted := true;
      offset := None;
    }
    var micros := GetData(lib, now, offset, h.microseconds, Label(Microseconds));
    var millis := GetData(lib, now, offset, h.milliseconds, Label(Milliseconds));
    var nanos := GetData(lib, now, offset, h.nanoseconds, Label(Nanoseconds));
    var seconds := GetData(lib, now, offset, h.seconds, Label(Seconds));
    var ds := [seconds, millis, micros, nanos];
    assert ds == HypothesisRecords(lib, now, offset, v);
    var some, none := Partition(ds);
    var sorted := RankResolved(some);
    out := Render(noted, sorted, none);
    ReportHasEveryRecord(lib, now, offset, noted, v);
  }

  /** The report on any parsed value has four entries, and the label of each
      of the four units is the unit of one of them. */
  lemma ReportHasEveryRecord(lib: Library, now: Instant, offset: Option<int>, noted: bool, v: int)
    requires InI128(v)
    ensures |Entries(ReportFor(lib, now, offset, noted, v))| == 4
    ensures ReportFor(lib, now, offset, noted, v) != []
    ensures forall name :: name in UnitNames ==>
              exists j :: 0 <= j < 4 && Entries(ReportFor(lib, now, offset, noted, v))[j].0 == Label(name)
  {
    var ds := HypothesisRecords(lib, now, offset, v);
    var some := ResolvedOf(ds);
    var sorted := StableSorted(some);
    PartitionExact(ds);
    StableSortedPermutes(some);
    assert |sorted| == |multiset(sorted)| == |some|;
    LayoutEntries(noted, sorted, UnresolvedOf(ds));
    EveryUnitReported(lib, now, offset, noted, v);
  }

  lemma EveryUnitReported(lib: Library, now: Instant, offset: Option<int>, noted: bool, v: int)
    requires InI128(v)
    ensures forall name :: name in UnitNames ==>
              exists j :: 0 <= j < |Entries(ReportFor(lib, now, offset, noted, v))| &&
                          Entries(ReportFor(lib, now, offset, noted, v))[j].0 == Label(name)
  {
    var ds := HypothesisRecords(lib, now, offset, v);
    LayoutEntries(noted, StableSorted(ResolvedOf(ds)), UnresolvedOf(ds));
    HypothesisUnits(lib, now, offset, v);
    forall name | name in UnitNames
      ensures exists j :: 0 <= j < |Entries(ReportFor(lib, now, offset, noted, v))| &&
                          Entries(ReportFor(lib, now, offset, noted, v))[j].0 == Label(name)
    {
      var k :| 0 <= k < 4 && UnitNames[k] == name;
      var j := RecordReported(ds, k);
      assert Entries(ReportFor(lib, now, offset, noted, v))[j].0 == Label(name);
    }
  }

  /** The four records carry the labels of seconds, milliseconds, microseconds
      and nanoseconds, in that order. */
  lemma HypothesisUnits(lib: Library, now: Instant, offset: Option<int>, v: int)
    requires InI128(v)
    ensures forall k :: 0 <= k < 4 ==> HypothesisRecords(lib, now, offset, v)[k].unit == Label(UnitNames[k])
  {
    RecordsUnits(lib, now, offset, Interpret(v));
  }

  lemma RecordsUnits(lib: Library, now: Instant, offset: Option<int>, h: Hypotheses)
    ensures forall k :: 0 <= k < 4 ==> RecordsOf(lib, now, offset, h)[k].unit == Label(UnitNames[k])
  {
    var ds := RecordsOf(lib, now, offset, h);
    forall k | 0 <= k < 4
      ensures ds[k].unit == Label(UnitNames[k])
    {
      if k == 0 {
        assert ds[0].unit == Label(Seconds);
      } else if k == 1 {
        assert ds[1].unit == Label(Milliseconds);
      } else if k == 2 {
        assert ds[2].unit == Label(Microseconds);
      } else {
        assert ds[3].unit == Label(Nanoseconds);
      }
    }
  }

  /** Every record, resolved or not, gives the unit of one of the report's
      entries: the resolved ones among the ranked entries, the others after
      them. */
  lemma RecordReported(ds: seq<Data>, k: nat) returns (j: nat)
    requires k < |ds|
    ensures var ps := ResolvedPairs(StableSorted(ResolvedOf(ds))) + UnresolvedPairs(UnresolvedOf(ds));
            j < |ps| && ps[j].0 == ds[k].unit
  {
    if ds[k].delta.Some? {
      j := ResolvedReported(ds, k);
    } else {
      j := UnresolvedReported(ds, k);
    }
  }

  lemma ResolvedReported(ds: seq<Data>, k: nat) returns (j: nat)
    requires k < |ds| && ds[k].delta.Some?
    ensures j < |StableSorted(ResolvedOf(ds))|
    ensures (ResolvedPairs(StableSorted(ResolvedOf(ds))) + UnresolvedPairs(UnresolvedOf(ds)))[j].0 == ds[k].unit
  {
    var some := ResolvedOf(ds);
    var sorted := StableSorted(some);
    var r := WithDelta(ds[k]);
    PartitionExact(ds);
    assert ds[k] in ds;
    assert r in some;
    StableSortedPermutes(some);
    assert r in multiset(sorted);
    j :| 0 <= j < |sorted| && sorted[j] == r;
    ResolvedEntryAt(sorted, UnresolvedOf(ds), j);
  }

  lemma UnresolvedReported(ds: seq<Data>, k: nat) returns (j: nat)
    requires k < |ds| && ds[k].delta.None?
    ensures var ps := ResolvedPairs(StableSorted(ResolvedOf(ds))) + UnresolvedPairs(UnresolvedOf(ds));
            j < |ps| && ps[j].0 == ds[k].unit
  {
    var none := UnresolvedOf(ds);
    PartitionExact(ds);
    assert ds[k] in ds;
    assert ds[k] in none;
    var i :| 0 <= i < |none| && none[i] == ds[k];
    UnresolvedEntryAt(StableSorted(ResolvedOf(ds)), none, i);
    j := |StableSorted(ResolvedOf(ds))| + i;
  }

  lemma ResolvedEntryAt(sorted: seq<DataWithDelta>, none: seq<Data>, i: nat)
    requires i < |sorted|
    ensures (ResolvedPairs(sorted) + UnresolvedPairs(none))[i].0 == sorted[i].unit
  {
    ResolvedPairsAt(sorted, i);
  }

  lemma UnresolvedEntryAt(sorted: seq<DataWithDelta>, none: seq<Data>, i: nat)
    requires i < |none|
    ensures |sorted| + i < |ResolvedPairs(sorted) + UnresolvedPairs(none)|
    ensures (ResolvedPairs(sorted) + UnresolvedPairs(none))[|sorted| + i].0 == none[i].unit
  {
    UnresolvedPairsAt(none, i);
  }
}
