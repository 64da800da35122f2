/**
 * Decimal formatting of non-negative integers as Go's strconv.FormatUint(x, 10) and
 * strconv.Itoa produce it.
 */
module Strconv {

  /** strconv.FormatUint(x, 10): the decimal digits of x, without leading zeros. */
  function FormatUint(x: nat): (s: string)
    ensures |s| >= 1
    ensures forall i :: 0 <= i < |s| ==> '0' <= s[i] <= '9'
    ensures s[0] == '0' ==> x == 0
    decreases x
  {
    if x < 10 then [Digit(x)] else FormatUint(x / 10) + [Digit(x % 10)]
  }

  function Digit(d: nat): (c: char)
    requires d < 10
    ensures '0' <= c <= '9' && (c - '0') as int == d
  {
    ('0' as int + d) as char
  }

  /** The value of a string of decimal digits. */
  function DecimalValue(s: string): nat
    requires forall i :: 0 <= i < |s| ==> '0' <= s[i] <= '9'
  {
    if s == [] then 0 else 10 * DecimalValue(s[..|s| - 1]) + (s[|s| - 1] - '0') as int
  }

  lemma {:induction false} FormatUintValue(x: nat)
    ensures DecimalValue(FormatUint(x)) == x
    decreases x
  {
    if x >= 10 {
      var s := FormatUint(x);
      assert s[..|s| - 1] == FormatUint(x / 10);
      assert s[|s| - 1] == Digit(x % 10);
      FormatUintValue(x / 10);
    }
  }

  /** Distinct ids format to distinct strings, so no two ids share a decimal form. */
  lemma FormatUintInjective(x: nat, y: nat)
    requires FormatUint(x) == FormatUint(y)
    ensures x == y
  {
    FormatUintValue(x);
    FormatUintValue(y);
  }
}
