/** Unsigned decimal numerals, as `format!("{}")`, `u64::from_str` and `strconv.ParseUint` treat them. */
module Decimals {
  import opened Text

  const U64_LIMIT: nat := 0x1_0000_0000_0000_0000

  predicate IsDigit(c: char) {
    '0' <= c <= '9'
  }

  predicate AllDigits(s: string) {
    forall i :: 0 <= i < |s| ==> IsDigit(s[i])
  }

  function Print(n: nat): (s: string)
    ensures s != "" && AllDigits(s)
  {
    var last := [(n % 10 + '0' as int) as char];
    if n < 10 then last else Print(n / 10) + last
  }

  function Value(s: string): nat
    requires AllDigits(s)
  {
    if s == "" then 0 else Value(s[..|s| - 1]) * 10 + (s[|s| - 1] as int - '0' as int)
  }

  /** Go's `strconv.ParseUint(s, 10, 64)`: digits only, and below 2^64. */
  function ParseUint(s: string): Option<nat> {
    if s == "" || !AllDigits(s) || Value(s) >= U64_LIMIT then None else Some(Value(s))
  }

  /** Rust's `s.parse::<u64>()`: as above, with one optional leading plus sign. */
  function ParseU64(s: string): Option<nat> {
    if s != "" && s[0] == '+' then ParseUint(s[1..]) else ParseUint(s)
  }

  lemma {:induction false} ValueOfPrint(n: nat)
    ensures Value(Print(n)) == n
  {
    if n >= 10 {
      ValueOfPrint(n / 10);
      assert Print(n)[..|Print(n)| - 1] == Print(n / 10);
    } else {
      assert Print(n)[..0] == "";
    }
  }

  /** Both parsers invert the printer on every 64-bit value. */
  lemma ParseOfPrint(n: nat)
    requires n < U64_LIMIT
    ensures ParseUint(Print(n)) == Some(n)
    ensures ParseU64(Print(n)) == Some(n)
  {
    ValueOfPrint(n);
    assert IsDigit(Print(n)[0]);
  }

  lemma PrintIsInjective(a: nat, b: nat)
    requires Print(a) == Print(b)
    ensures a == b
  {
    ValueOfPrint(a);
    ValueOfPrint(b);
  }
}
