/** Decimal numerals: what strconv.FormatUint, ParseUint and Itoa mean. */
module Decimal {
  import opened Lists

  const TWO_64 := 0x1_0000_0000_0000_0000

  type U64 = n: nat | n < TWO_64

  predicate IsDigit(c: char) {
    '0' <= c <= '9'
  }

  function Digit(d: nat): char
    requires d < 10
  {
    '0' + d as char
  }

  function DigitValue(c: char): nat
    requires IsDigit(c)
  {
    (c - '0') as nat
  }

  predicate AllDigits(s: string) {
    forall i | 0 <= i < |s| :: IsDigit(s[i])
  }

  function Format(n: nat): string {
    if n < 10 then [Digit(n)] else Format(n / 10) + [Digit(n % 10)]
  }

  function Value(s: string): nat
    requires AllDigits(s)
  {
    if s == [] then 0 else 10 * Value(s[..|s| - 1]) + DigitValue(s[|s| - 1])
  }

  /** ParseUint(s, 10, 64): only digits, at least one, and no overflow. */
  function ParseUint(s: string): Option<U64> {
    if s != [] && AllDigits(s) && Value(s) < TWO_64 then Some(Value(s)) else None
  }

  lemma {:induction false} FormatValue(n: nat)
    ensures Format(n) != [] && AllDigits(Format(n)) && Value(Format(n)) == n
  {
    if n >= 10 {
      FormatValue(n / 10);
      var p, s := Format(n / 10), Format(n);
      assert s[..|s| - 1] == p && s[|s| - 1] == Digit(n % 10);
    } else {
      assert Format(n)[..0] == [];
    }
  }

  /** Formatting and parsing is the identity on 64-bit counts and on no others. */
  lemma ParseFormat(n: nat)
    ensures ParseUint(Format(n)) == (if n < TWO_64 then Some(n) else None)
  {
    FormatValue(n);
  }

  lemma FormatInjective(a: nat, b: nat)
    requires Format(a) == Format(b)
    ensures a == b
  {
    FormatValue(a);
    FormatValue(b);
  }

  /** The digits are the usual ones, the most significant first. */
  lemma Spelling(d: nat)
    requires d < 10
    ensures Format(d) == ["0123456789"[d]]
    ensures Format(10) == "10" && Format(2048) == "2048"
  {
    assert Format(204) == "204" by {
      assert Format(20) == "20";
    }
  }
}
