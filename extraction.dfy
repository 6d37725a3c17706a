/**
 * Candidate extraction: deciding which digit string of the argument is read
 * as the timestamp. An all-digit argument is the candidate itself (fast
 * path); otherwise the longest digit run that is short enough is chosen, the
 * leftmost one among runs of equal length.
 */
module Extraction {
  import opened Wrappers
  import opened Digits
  import opened Diagnostics

  /** A digit run short enough to be parsed. */
  predicate Eligible(r: Run) {
    r.len <= MaximumNumberOfDigits
  }

  /** The number of eligible runs in `rs`. */
  function EligibleCount(rs: seq<Run>): nat {
    if rs == [] then 0
    else EligibleCount(rs[..|rs| - 1]) + (if Eligible(rs[|rs| - 1]) then 1 else 0)
  }

  /** No eligible run, and a count of zero, are the same thing. */
  lemma {:induction false} EligibleCountZero(rs: seq<Run>)
    ensures EligibleCount(rs) == 0 <==> forall k :: 0 <= k < |rs| ==> !Eligible(rs[k])
  {
    if rs != [] {
      var init := rs[..|rs| - 1];
      EligibleCountZero(init);
      assert forall k :: 0 <= k < |init| ==> init[k] == rs[k];
    }
  }

  /** The run of `s` that extraction picks when `s` is not all digits: an
      eligible maximal digit run, no eligible run is longer, and every other
      eligible run of the same length starts later. */
  predicate ChosenRun(s: string, r: Run) {
    && r in DigitRuns(s)
    && Eligible(r)
    && (forall q :: q in DigitRuns(s) && Eligible(q) ==> q.len <= r.len)
    && (forall q :: q in DigitRuns(s) && Eligible(q) && q.len == r.len ==> r.start <= q.start)
  }

  /** The chosen run is determined by the string. */
  lemma ChosenRunUnique(s: string, r1: Run, r2: Run)
    requires ChosenRun(s, r1) && ChosenRun(s, r2)
    ensures r1 == r2
  {
  }

  /**
   * The fast-path character loop: counts leading ASCII digits and stops at the
   * first other character.
   */
  method ScanNumeric(s: string) returns (numeric: bool, digits: nat)
    ensures numeric <==> AllDigits(s)
    ensures digits <= |s| && AllDigits(s[..digits])
    ensures digits < |s| ==> !IsAsciiDigit(s[digits])
    ensures numeric ==> digits == |s|
  {
    numeric := true;
    digits := 0;
    var i := 0;
    while i < |s|
      invariant 0 <= i <= |s|
      invariant digits == i
      invariant numeric
      invariant AllDigits(s[..i])
    {
      if IsAsciiDigit(s[i]) {
        digits := digits + 1;
      } else {
        numeric := false;
        break;
      }
      i := i + 1;
    }
    assert numeric ==> s[..i] == s;
  }

  /**
   * The loop over the matches of `[0-9]+`: counts the eligible runs and keeps
   * the first eligible run that is strictly longer than every eligible run
   * before it.
   */
  method SelectLongestRun(s: string) returns (best: Option<Run>, count: nat)
    ensures count == EligibleCount(DigitRuns(s))
    ensures best.None? <==> count == 0
    ensures best.None? <==> forall k :: 0 <= k < |DigitRuns(s)| ==> !Eligible(DigitRuns(s)[k])
    ensures best.Some? ==> ChosenRun(s, best.value)
  {
    var runs := DigitRuns(s);
    RunsNonEmpty(s);
    best := None;
    var bestLen := 0;
    count := 0;
    ghost var bestIndex := 0;
    var i := 0;
    while i < |runs|
      invariant 0 <= i <= |runs|
      invariant count == EligibleCount(runs[..i])
      invariant best.None? <==> bestLen == 0
      invariant best.None? ==> forall j :: 0 <= j < i ==> !Eligible(runs[j])
      invariant best.Some? ==> bestIndex < i && runs[bestIndex] == best.value
      invariant best.Some? ==> Eligible(best.value) && bestLen == best.value.len
      invariant forall j :: 0 <= j < i && Eligible(runs[j]) ==> runs[j].len <= bestLen
      invariant best.Some? ==> forall j :: 0 <= j < bestIndex && Eligible(runs[j]) ==> runs[j].len < bestLen
    {
      var r := runs[i];
      assert runs[..i + 1][..i] == runs[..i];
      if r.len <= MaximumNumberOfDigits {
        count := count + 1;
        if r.len > bestLen {
          bestLen := r.len;
          best := Some(r);
          bestIndex := i;
        }
      }
      i := i + 1;
    }
    assert runs[..i] == runs;
    EligibleCountZero(runs);
    if best.Some? {
      LeftmostOfLongest(s, bestIndex);
    }
  }

  lemma RunsNonEmpty(s: string)
    ensures forall k :: 0 <= k < |DigitRuns(s)| ==> DigitRuns(s)[k].len > 0
  {
    DigitRunsCorrect(s);
  }

  /** A run that no earlier eligible run matches in length starts before every
      later run, so it is the leftmost one of its length. */
  lemma LeftmostOfLongest(s: string, b: nat)
    requires b < |DigitRuns(s)|
    requires forall j :: 0 <= j < b && Eligible(DigitRuns(s)[j]) ==> DigitRuns(s)[j].len < DigitRuns(s)[b].len
    ensures forall q :: q in DigitRuns(s) && Eligible(q) && q.len == DigitRuns(s)[b].len ==>
              DigitRuns(s)[b].start <= q.start
  {
    var runs := DigitRuns(s);
    DigitRunsCorrect(s);
    forall q | q in runs && Eligible(q) && q.len == runs[b].len
      ensures runs[b].start <= q.start
    {
      var j :| 0 <= j < |runs| && runs[j] == q;
      if j > b {
        OrderedStarts(runs, b, j);
      }
    }
  }

  /** What extraction hands on: a candidate string, with the advisories
      written on the way, or the messages that end the run. */
  datatype Extraction =
    | Candidate(text: string, notes: seq<Diagnostic>)
    | Rejected(messages: seq<Diagnostic>)

  /** The note on several eligible runs, given when there is more than one. */
  function ManyCandidates(count: nat): seq<Diagnostic> {
    if count > 1 then [ManyCandidatesNote(count)] else []
  }

  /**
   * The whole extraction step. An all-digit argument is its own candidate,
   * or too long; any other argument yields its chosen run, or no candidate.
   */
  method ExtractCandidate(s: string) returns (e: Extraction)
    ensures AllDigits(s) && |s| > MaximumNumberOfDigits ==> e == Rejected([InputTooLong])
    ensures AllDigits(s) && |s| <= MaximumNumberOfDigits ==> e == Candidate(s, [])
    ensures !AllDigits(s) && EligibleCount(DigitRuns(s)) == 0 ==>
              e == Rejected([NonDigitNote, NoCandidateError])
    ensures !AllDigits(s) && EligibleCount(DigitRuns(s)) > 0 ==>
              && e.Candidate?
              && (exists r :: ChosenRun(s, r) && r.End() <= |s| && e.text == RunText(s, r))
              && e.notes == [NonDigitNote] + ManyCandidates(EligibleCount(DigitRuns(s)))
  {
    var numeric, digits := ScanNumeric(s);
    if numeric && digits > MaximumNumberOfDigits {
      return Rejected([InputTooLong]);
    }
    if numeric {
      return Candidate(s, []);
    }
    var notes := [NonDigitNote];
    var best, count := SelectLongestRun(s);
    if best.Some? {
      if count > 1 {
        notes := notes + [ManyCandidatesNote(count)];
      }
      assert notes == [NonDigitNote] + ManyCandidates(count);
      CandidateShape(s, best.value);
      e := Candidate(RunText(s, best.value), notes);
    } else {
      e := Rejected(notes + [NoCandidateError]);
    }
  }

  /** A chosen run lies inside the input, and its text is a non-empty digit
      string of at most 21 digits. */
  lemma CandidateShape(s: string, r: Run)
    requires ChosenRun(s, r)
    ensures r.End() <= |s|
    ensures AllDigits(RunText(s, r)) && 0 < |RunText(s, r)| <= MaximumNumberOfDigits
  {
    DigitRunsCorrect(s);
    var k :| 0 <= k < |DigitRuns(s)| && DigitRuns(s)[k] == r;
    assert MaximalRun(s, DigitRuns(s)[k]);
  }
}
