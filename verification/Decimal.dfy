/**
 Plain decimal numerals, as `str(version)`, `int(raw)` and JavaScript's number printing use them
 for non-negative integers.
 */
module Decimal {
  import opened Prelude

  predicate IsDigit(c: char) {
    '0' <= c <= '9'
  }

  function DigitOf(n: nat): char
    requires n < 10
  {
    '0' + n as char
  }

  function ValueOf(c: char): nat
    requires IsDigit(c)
  {
    (c - '0') as nat
  }

  /** The numeral of `n` without leading zeros. */
  function Print(n: nat): string {
    if n < 10 then [DigitOf(n)] else Print(n / 10) + [DigitOf(n % 10)]
  }

  predicate Digits(s: string) {
    forall i :: 0 <= i < |s| ==> IsDigit(s[i])
  }

  function Value(s: string): nat
    requires Digits(s)
  {
    if s == [] then 0 else 10 * Value(s[..|s| - 1]) + ValueOf(s[|s| - 1])
  }

  function Parse(s: string): Option<nat> {
    if s != [] && Digits(s) then Some(Value(s)) else None
  }

  lemma {:induction false} PrintIsNumeral(n: nat)
    ensures Print(n) != [] && Digits(Print(n)) && Value(Print(n)) == n
  {
    if n >= 10 {
      PrintIsNumeral(n / 10);
      var s := Print(n);
      assert s[..|s| - 1] == Print(n / 10);
      assert s[|s| - 1] == DigitOf(n % 10);
    } else {
      var s := Print(n);
      assert s[..|s| - 1] == [];
    }
  }
}
