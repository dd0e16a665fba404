/**
 * `int.Parse` for the crawl-delay value, reduced to its core grammar: an optional
 * '+' or '-' sign followed by one or more decimal digits, whose value fits in a
 * signed 32-bit integer. Anything else fails (FormatException or OverflowException).
 */
module Int32Text {
  import opened Wrappers

  const MinInt32: int := -0x8000_0000
  const MaxInt32: int := 0x7fff_ffff

  predicate InInt32(n: int) { MinInt32 <= n <= MaxInt32 }

  predicate IsDigit(c: char) { '0' <= c <= '9' }

  predicate AllDigits(s: string) {
    forall i :: 0 <= i < |s| ==> IsDigit(s[i])
  }

  function DigitValue(c: char): nat
    requires IsDigit(c)
  {
    c as int - '0' as int
  }

  function DigitChar(d: nat): (c: char)
    requires d < 10
    ensures IsDigit(c) && DigitValue(c) == d
  {
    ('0' as int + d) as char
  }

  /** The value of a run of decimal digits, most significant first. */
  function DigitsValue(s: string): nat
    requires AllDigits(s)
  {
    if s == [] then 0 else DigitsValue(s[..|s| - 1]) * 10 + DigitValue(s[|s| - 1])
  }

  /** The parsed value, or None where `int.Parse` throws. */
  function ParseInt32(s: string): (r: Option<int>)
    ensures r.Some? ==> InInt32(r.value)
    ensures r.Some? ==> |s| > 0
  {
    if s == [] then None
    else
      var negative := s[0] == '-';
      var digits := if s[0] == '-' || s[0] == '+' then s[1..] else s;
      if digits == [] || !AllDigits(digits) then None
      else
        var n: int := if negative then 0 - DigitsValue(digits) as int else DigitsValue(digits) as int;
        if InInt32(n) then Some(n) else None
  }

  /** Decimal digits of `n`, no leading zero. */
  function ShowNat(n: nat): (s: string)
    ensures s != [] && AllDigits(s)
  {
    if n < 10 then [DigitChar(n)] else ShowNat(n / 10) + [DigitChar(n % 10)]
  }

  /** The invariant culture's `int.ToString()`. */
  function ShowInt(n: int): string {
    if n < 0 then "-" + ShowNat(-n) else ShowNat(n)
  }

  lemma {:induction false} DigitsOfShowNat(n: nat)
    ensures DigitsValue(ShowNat(n)) == n
  {
    if n >= 10 {
      var s := ShowNat(n);
      assert s[..|s| - 1] == ShowNat(n / 10);
      DigitsOfShowNat(n / 10);
    }
  }

  /** Every 32-bit value survives being written out and parsed back. */
  lemma ParseShowInt(n: int)
    requires InInt32(n)
    ensures ParseInt32(ShowInt(n)) == Some(n)
  {
    DigitsOfShowNat(if n < 0 then -n else n);
    if n < 0 {
      assert ("-" + ShowNat(-n))[1..] == ShowNat(-n);
    }
  }

  /** A value that passed the parse has only sign and digit characters. */
  lemma ParsedIsSignedDigits(s: string)
    requires ParseInt32(s).Some?
    ensures s[0] == '-' || s[0] == '+' || IsDigit(s[0])
    ensures forall i :: 1 <= i < |s| ==> IsDigit(s[i])
  {
  }
}
