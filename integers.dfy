/**
 * Machine integer ranges and the standard library's decimal parse of a string
 * into a signed 128-bit integer (`str::parse::<i128>`).
 */
module Integers {
  import opened Wrappers
  import opened Digits

  const I64Min: int := -0x8000_0000_0000_0000
  const I64Max: int := 0x7FFF_FFFF_FFFF_FFFF
  const I128Min: int := -0x8000_0000_0000_0000_0000_0000_0000_0000
  const I128Max: int := 0x7FFF_FFFF_FFFF_FFFF_FFFF_FFFF_FFFF_FFFF

  predicate InI64(x: int) {
    I64Min <= x <= I64Max
  }

  predicate InI128(x: int) {
    I128Min <= x <= I128Max
  }

  /** Why a parse failed, as the standard library classifies it. */
  datatype IntErrorKind = Empty | InvalidDigit | PosOverflow | NegOverflow

  /**
   * Parses an optional sign followed by decimal digits. The empty string and a
   * lone sign are rejected; digits are consumed left to right and the first
   * non-digit, or the first prefix whose value leaves the i128 range, decides
   * the error.
   */
  function ParseI128(s: string): (r: Result<int, IntErrorKind>)
    ensures r.Success? ==> InI128(r.value)
    ensures r == Failure(Empty) <==> s == []
  {
    if |s| == 0 then Failure(Empty)
    else if (s[0] == '+' || s[0] == '-') && |s| == 1 then Failure(InvalidDigit)
    else if s[0] == '+' then Accumulate(s, 1, 0, false)
    else if s[0] == '-' then Accumulate(s, 1, 0, true)
    else Accumulate(s, 0, 0, false)
  }

  /** Consumes `s[i..]` into the accumulator `acc`, subtracting digits when `negative`. */
  function Accumulate(s: string, i: nat, acc: int, negative: bool): (r: Result<int, IntErrorKind>)
    requires i <= |s| && InI128(acc)
    ensures r.Success? ==> InI128(r.value)
    ensures r != Failure(Empty)
    decreases |s| - i
  {
    if i == |s| then Success(acc)
    else if !IsAsciiDigit(s[i]) then Failure(InvalidDigit)
    else
      var next := if negative then acc * 10 - DigitValue(s[i]) else acc * 10 + DigitValue(s[i]);
      if next > I128Max then Failure(PosOverflow)
      else if next < I128Min then Failure(NegOverflow)
      else Accumulate(s, i + 1, next, negative)
  }

  lemma {:induction false} AccumulateDigits(s: string, i: nat)
    requires AllDigits(s) && i <= |s|
    requires DecimalValue(s[..i]) <= I128Max
    ensures Accumulate(s, i, DecimalValue(s[..i]), false) ==
            if DecimalValue(s) <= I128Max then Success(DecimalValue(s)) else Failure(PosOverflow)
    decreases |s| - i
  {
    if i == |s| {
      assert s[..i] == s;
    } else {
      var prefix := s[..i + 1];
      assert prefix[..i] == s[..i];
      var next := DecimalValue(s[..i]) * 10 + DigitValue(s[i]);
      assert next == DecimalValue(prefix);
      PrefixValueBounded(s, i + 1);
      if next > I128Max {
      } else {
        AccumulateDigits(s, i + 1);
      }
    }
  }

  /** An unsigned digit string parses to its decimal value, unless it is empty
      or its value does not fit in i128. */
  lemma DigitsParse(s: string)
    requires AllDigits(s) && s != []
    ensures ParseI128(s) ==
            if DecimalValue(s) <= I128Max then Success(DecimalValue(s)) else Failure(PosOverflow)
  {
    assert IsAsciiDigit(s[0]);
    assert s[..0] == [];
    AccumulateDigits(s, 0);
  }

  /** Every digit string of at most 38 digits fits in i128, so it parses exactly
      when it is non-empty. */
  lemma ShortDigitsParse(s: string)
    requires AllDigits(s) && 0 < |s| <= 38
    ensures ParseI128(s) == Success(DecimalValue(s))
  {
    DigitsParse(s);
    Pow10Monotone(|s|, 38);
    Pow10ThirtyEight();
  }

  lemma Pow10Eighteen()
    ensures Pow10(18) == 1_000_000_000_000_000_000
  {
    Pow10Add(10, 8);
    assert Pow10(10) == 10_000_000_000 && Pow10(8) == 100_000_000;
  }

  lemma Pow10ThirtyEight()
    ensures Pow10(38) == 100_000_000_000_000_000_000_000_000_000_000_000_000
  {
    Pow10Add(20, 18);
    Pow10Twenty();
    Pow10Eighteen();
  }

  lemma Pow10Twenty()
    ensures Pow10(20) == 100_000_000_000_000_000_000
  {
    Pow10Add(10, 10);
    assert Pow10(10) == 10_000_000_000;
  }

  lemma {:induction false} Pow10Add(m: nat, n: nat)
    ensures Pow10(m + n) == Pow10(m) * Pow10(n)
  {
    if m > 0 {
      Pow10Add(m - 1, n);
    }
  }

  lemma {:induction false} Pow10Monotone(m: nat, n: nat)
    requires m <= n
    ensures Pow10(m) <= Pow10(n)
    decreases n - m
  {
    if m < n {
      Pow10Monotone(m, n - 1);
    }
  }
}
