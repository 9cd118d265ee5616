/** Decimal numerals, as JavaScript's template literals print a non-negative integer. */
module Decimals {

  function Decimal(n: nat): (s: string)
    ensures s != []
    ensures Value(s) == n
    ensures forall i :: 0 <= i < |s| ==> '0' <= s[i] <= '9'
  {
    if n < 10 then
      [('0' as int + n) as char]
    else
      var front := Decimal(n / 10);
      var s := front + [('0' as int + n % 10) as char];
      assert s[..|s| - 1] == front;
      s
  }

  /** Reads a numeral back; `Decimal` is therefore injective. */
  function Value(s: string): int {
    if s == [] then 0 else 10 * Value(s[..|s| - 1]) + (s[|s| - 1] as int - '0' as int)
  }
}
