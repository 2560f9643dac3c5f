/** Decimal parsing as Go's `strconv.ParseUint(s, 10, 64)` and
    `strconv.Atoi` do it on a 64-bit platform, with the decimal rendering
    that inverts them. */
module Strconv {
  import opened Wrappers

  /** 2^64: the first value a uint64 cannot hold. */
  const Uint64Bound: nat := 0x1_0000_0000_0000_0000
  /** 2^63: the first value an int64 cannot hold. */
  const Int64Bound: nat := 0x8000_0000_0000_0000

  predicate IsDigit(c: char)
  {
    '0' <= c <= '9'
  }

  predicate AllDigits(s: string)
  {
    forall i :: 0 <= i < |s| ==> IsDigit(s[i])
  }

  function DigitValue(c: char): nat
    requires IsDigit(c)
  {
    c as int - '0' as int
  }

  /** The number a string of decimal digits denotes (leading zeros allowed). */
  function DecimalValue(s: string): nat
    requires AllDigits(s)
  {
    if |s| == 0 then 0 else DecimalValue(s[..|s| - 1]) * 10 + DigitValue(s[|s| - 1])
  }

  /** strconv.ParseUint(s, 10, 64): one or more decimal digits, no sign, no
      underscore, and a value below 2^64. */
  function ParseUint64(s: string): (r: Option<nat>)
    ensures r.Some? ==> r.value < Uint64Bound
    ensures r.Some? ==> |s| > 0 && AllDigits(s)
  {
    if |s| > 0 && AllDigits(s) && DecimalValue(s) < Uint64Bound then Some(DecimalValue(s)) else None
  }

  /** Every non-empty digit string below 2^64 parses to its value. */
  lemma {:induction false} ParseUint64Accepts(s: string)
    requires |s| > 0 && AllDigits(s) && DecimalValue(s) < Uint64Bound
    ensures ParseUint64(s) == Some(DecimalValue(s))
  {
  }

  /** strconv.Atoi: an optional sign, one or more decimal digits, and a
      value in the int64 range. */
  function Atoi(s: string): (r: Option<int>)
    ensures r.Some? ==> -(Int64Bound as int) <= r.value < Int64Bound
  {
    if |s| > 0 && (s[0] == '+' || s[0] == '-') then
      var digits := s[1..];
      if |digits| > 0 && AllDigits(digits) then
        var v := DecimalValue(digits);
        if s[0] == '-' then
          (if v <= Int64Bound then Some(-(v as int)) else None)
        else
          (if v < Int64Bound then Some(v) else None)
      else None
    else if |s| > 0 && AllDigits(s) && DecimalValue(s) < Int64Bound then
      Some(DecimalValue(s))
    else None
  }

  function DigitChar(d: nat): (c: char)
    requires d < 10
    ensures IsDigit(c) && DigitValue(c) == d
  {
    ('0' as int + d) as char
  }

  /** strconv.FormatUint(n, 10): the shortest decimal rendering of n. */
  function FormatUint(n: nat): (r: string)
    ensures |r| > 0 && AllDigits(r)
  {
    if n < 10 then [DigitChar(n)] else FormatUint(n / 10) + [DigitChar(n % 10)]
  }

  /** The rendering denotes the number it renders. */
  lemma {:induction false} DecimalValueOfFormat(n: nat)
    ensures DecimalValue(FormatUint(n)) == n
  {
    if n >= 10 {
      DecimalValueOfFormat(n / 10);
      var s := FormatUint(n);
      assert s[..|s| - 1] == FormatUint(n / 10);
    }
  }

  /** ParseUint64 reads back every uint64 that FormatUint renders. */
  lemma {:induction false} ParseUintOfFormat(n: nat)
    requires n < Uint64Bound
    ensures ParseUint64(FormatUint(n)) == Some(n)
  {
    DecimalValueOfFormat(n);
  }

  /** Atoi reads back every int64, with and without a leading minus. */
  lemma {:induction false} AtoiOfFormat(n: nat)
    requires n < Int64Bound
    ensures Atoi(FormatUint(n)) == Some(n)
    ensures Atoi("-" + FormatUint(n)) == Some(-(n as int))
    ensures Atoi("+" + FormatUint(n)) == Some(n)
  {
    DecimalValueOfFormat(n);
    assert ("-" + FormatUint(n))[1..] == FormatUint(n);
    assert ("+" + FormatUint(n))[1..] == FormatUint(n);
  }
}
