/**
 * ASCII digits, decimal values of digit strings, and the maximal digit runs
 * that the pattern `[0-9]+` finds when it is matched repeatedly, left to right,
 * over a string (leftmost-first, greedy, non-overlapping matches).
 */
module Digits {

  /** The longest digit string the program accepts as a timestamp. */
  const MaximumNumberOfDigits: nat := 21

  predicate IsAsciiDigit(c: char) {
    '0' <= c <= '9'
  }

  predicate AllDigits(s: string) {
    forall i :: 0 <= i < |s| ==> IsAsciiDigit(s[i])
  }

  function DigitValue(c: char): (d: nat)
    requires IsAsciiDigit(c)
    ensures d < 10
  {
    c as int - '0' as int
  }

  function Pow10(n: nat): (p: nat)
    ensures p >= 1
  {
    if n == 0 then 1 else 10 * Pow10(n - 1)
  }

  /** The value of a digit string read in base ten, most significant digit first. */
  function DecimalValue(s: string): (v: nat)
    requires AllDigits(s)
    ensures v < Pow10(|s|)
  {
    if s == [] then 0
    else DecimalValue(s[..|s| - 1]) * 10 + DigitValue(s[|s| - 1])
  }

  /** A prefix of a digit string never has a larger value than the whole string. */
  lemma {:induction false} PrefixValueBounded(s: string, j: nat)
    requires AllDigits(s) && j <= |s|
    ensures DecimalValue(s[..j]) <= DecimalValue(s)
    decreases |s| - j
  {
    if j < |s| {
      var init := s[..|s| - 1];
      assert init[..j] == s[..j];
      PrefixValueBounded(init, j);
    } else {
      assert s[..j] == s;
    }
  }

  /** A run of characters of a string, `len` characters from index `start`. */
  datatype Run = Run(start: nat, len: nat) {
    function End(): nat {
      start + len
    }
  }

  /** `r` is a maximal run of ASCII digits of `s`: non-empty, inside `s`, all
      digits, and neither extendable to the left nor to the right. */
  predicate MaximalRun(s: string, r: Run) {
    && r.len > 0
    && r.End() <= |s|
    && (forall k :: r.start <= k < r.End() ==> IsAsciiDigit(s[k]))
    && (r.start == 0 || !IsAsciiDigit(s[r.start - 1]))
    && (r.End() == |s| || !IsAsciiDigit(s[r.End()]))
  }

  /** The first index at or after `i` that does not hold a digit. */
  function DigitsEnd(s: string, i: nat): (e: nat)
    requires i <= |s|
    ensures i <= e <= |s|
    ensures forall k :: i <= k < e ==> IsAsciiDigit(s[k])
    ensures e < |s| ==> !IsAsciiDigit(s[e])
    decreases |s| - i
  {
    if i < |s| && IsAsciiDigit(s[i]) then DigitsEnd(s, i + 1) else i
  }

  /** The runs that repeated matching of `[0-9]+` finds in `s[i..]`. */
  function RunsFrom(s: string, i: nat): seq<Run>
    requires i <= |s|
    decreases |s| - i
  {
    if i == |s| then []
    else if !IsAsciiDigit(s[i]) then RunsFrom(s, i + 1)
    else
      var e := DigitsEnd(s, i);
      [Run(i, e - i)] + RunsFrom(s, e)
  }

  /** All maximal digit runs of `s`, left to right. */
  function DigitRuns(s: string): seq<Run> {
    RunsFrom(s, 0)
  }

  /** The text of a run. */
  function RunText(s: string, r: Run): (t: string)
    requires r.End() <= |s|
    ensures |t| == r.len
  {
    s[r.start..r.End()]
  }

  /** Runs listed left to right without touching: each ends before the next one starts. */
  predicate Ordered(rs: seq<Run>) {
    forall k :: 0 <= k < |rs| - 1 ==> rs[k].End() < rs[k + 1].start
  }

  predicate Covers(rs: seq<Run>, p: nat) {
    exists k :: 0 <= k < |rs| && rs[k].start <= p < rs[k].End()
  }

  lemma {:induction false} RunsFromMaximal(s: string, i: nat)
    requires i <= |s|
    requires i < |s| && IsAsciiDigit(s[i]) && i > 0 ==> !IsAsciiDigit(s[i - 1])
    ensures forall k :: 0 <= k < |RunsFrom(s, i)| ==>
              MaximalRun(s, RunsFrom(s, i)[k]) && RunsFrom(s, i)[k].start >= i
    decreases |s| - i
  {
    if i == |s| {
    } else if !IsAsciiDigit(s[i]) {
      RunsFromMaximal(s, i + 1);
    } else {
      var e := DigitsEnd(s, i);
      RunsFromMaximal(s, e);
      assert MaximalRun(s, Run(i, e - i));
    }
  }

  lemma {:induction false} RunsFromOrdered(s: string, i: nat)
    requires i <= |s|
    requires i < |s| && IsAsciiDigit(s[i]) && i > 0 ==> !IsAsciiDigit(s[i - 1])
    ensures Ordered(RunsFrom(s, i))
    decreases |s| - i
  {
    if i == |s| {
    } else if !IsAsciiDigit(s[i]) {
      RunsFromOrdered(s, i + 1);
    } else {
      var e := DigitsEnd(s, i);
      var rest := RunsFrom(s, e);
      RunsFromOrdered(s, e);
      var rs := [Run(i, e - i)] + rest;
      if 0 < |rest| {
        RunsFromMaximal(s, e);
        assert MaximalRun(s, rest[0]) && rest[0].start >= e;
        assert rest[0].start != e;
      }
      forall k | 0 <= k < |rs| - 1
        ensures rs[k].End() < rs[k + 1].start
      {
        if k > 0 {
          assert rs[k] == rest[k - 1] && rs[k + 1] == rest[k];
        }
      }
    }
  }

  lemma {:induction false} RunsFromCover(s: string, i: nat)
    requires i <= |s|
    ensures forall p :: i <= p < |s| && IsAsciiDigit(s[p]) ==> Covers(RunsFrom(s, i), p)
    decreases |s| - i
  {
    if i == |s| {
    } else if !IsAsciiDigit(s[i]) {
      RunsFromCover(s, i + 1);
    } else {
      var e := DigitsEnd(s, i);
      var rest := RunsFrom(s, e);
      RunsFromCover(s, e);
      var rs := [Run(i, e - i)] + rest;
      forall p | i <= p < |s| && IsAsciiDigit(s[p])
        ensures Covers(rs, p)
      {
        if p < e {
          assert rs[0].start <= p < rs[0].End();
        } else {
          assert Covers(rest, p);
          var k :| 0 <= k < |rest| && rest[k].start <= p < rest[k].End();
          assert rs[k + 1] == rest[k];
        }
      }
    }
  }

  /** The runs found are exactly the maximal digit runs, left to right: every
      run found is maximal, they are ordered and disjoint, and every digit of
      `s` lies in one of them. */
  lemma DigitRunsCorrect(s: string)
    ensures forall k :: 0 <= k < |DigitRuns(s)| ==> MaximalRun(s, DigitRuns(s)[k])
    ensures Ordered(DigitRuns(s))
    ensures forall p :: 0 <= p < |s| && IsAsciiDigit(s[p]) ==> Covers(DigitRuns(s), p)
  {
    RunsFromMaximal(s, 0);
    RunsFromOrdered(s, 0);
    RunsFromCover(s, 0);
  }

  /** In an ordered list of runs, a later run starts strictly later. */
  lemma {:induction false} OrderedStarts(rs: seq<Run>, j: nat, k: nat)
    requires Ordered(rs) && j < k < |rs|
    requires forall m :: 0 <= m < |rs| ==> rs[m].len > 0
    ensures rs[j].start < rs[k].start
    decreases k - j
  {
    if j + 1 < k {
      OrderedStarts(rs, j + 1, k);
    }
  }

  /** A string that is all digits has no run at all when empty, and otherwise
      exactly one run: itself. */
  lemma AllDigitsRuns(s: string)
    requires AllDigits(s)
    ensures DigitRuns(s) == if s == [] then [] else [Run(0, |s|)]
  {
    if s != [] {
      DigitsEndOfDigits(s, 0);
      assert IsAsciiDigit(s[0]);
      assert RunsFrom(s, |s|) == [];
      assert RunsFrom(s, 0) == [Run(0, |s|)] + RunsFrom(s, |s|);
    }
  }

  lemma {:induction false} DigitsEndOfDigits(s: string, i: nat)
    requires AllDigits(s) && i <= |s|
    ensures DigitsEnd(s, i) == |s|
    decreases |s| - i
  {
    if i < |s| {
      DigitsEndOfDigits(s, i + 1);
    }
  }
}
