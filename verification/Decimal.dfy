/** Decimal numbers as the program prints and parses them. */
module Decimal {
  import opened Text

  const DIGITS: seq<char> := ['0', '1', '2', '3', '4', '5', '6', '7', '8', '9']

  function Print(n: nat): string {
    if n < 10 then [DIGITS[n]] else Print(n / 10) + [DIGITS[n % 10]]
  }

  /** With a minus sign when negative. */
  function PrintInt(n: int): string {
    if n < 0 then "-" + Print(-n) else Print(n)
  }

  predicate IsDigit(c: char) {
    '0' <= c <= '9'
  }

  predicate AllDigits(s: string) {
    forall k :: 0 <= k < |s| ==> IsDigit(s[k])
  }

  function DigitValue(c: char): nat
    requires IsDigit(c)
  {
    (c - '0') as int
  }

  function Value(s: string): nat
    requires AllDigits(s)
  {
    if s == "" then 0 else Value(s[..|s| - 1]) * 10 + DigitValue(s[|s| - 1])
  }

  const MAX_INT := 0x7FFF_FFFF_FFFF_FFFF

  /** An optional sign, at least one digit and nothing else, within 64 bits. */
  function Atoi(s: string): Option<int> {
    var signed := s != "" && (s[0] == '+' || s[0] == '-');
    var digits := if signed then s[1..] else s;
    if digits == "" || !AllDigits(digits) then None
    else
      var size: int := Value(digits);
      var v := if signed && s[0] == '-' then -size else size;
      if -MAX_INT - 1 <= v <= MAX_INT then Some(v) else None
  }

  lemma {:induction false} PrintedDigits(n: nat)
    ensures Print(n) != "" && AllDigits(Print(n)) && Value(Print(n)) == n
  {
    if n < 10 {
      OneDigit(n);
      assert Print(n)[..0] == "";
    } else {
      PrintedDigits(n / 10);
      OneDigit(n % 10);
      assert Print(n)[..|Print(n)| - 1] == Print(n / 10);
    }
  }

  lemma OneDigit(d: nat)
    requires d < 10
    ensures IsDigit(DIGITS[d]) && DigitValue(DIGITS[d]) == d
  {
  }

  /** Parsing what was printed gives the number, as long as it fits. */
  lemma AtoiOfPrint(n: int)
    ensures Atoi(PrintInt(n)) == if -MAX_INT - 1 <= n <= MAX_INT then Some(n) else None
  {
    var digits := Print(if n < 0 then -n else n);
    PrintedDigits(if n < 0 then -n else n);
    if n < 0 {
      SignedDigits(digits);
    } else {
      assert IsDigit(digits[0]);
    }
  }

  lemma SignedDigits(digits: string)
    requires digits != "" && AllDigits(digits)
    ensures var size: int := Value(digits); Atoi("-" + digits) == if size <= MAX_INT + 1 then Some(-size) else None
  {
    assert ("-" + digits)[1..] == digits;
  }

  lemma TwoMoreDigits(n: nat, a: nat, b: nat)
    requires n > 0 && a < 10 && b < 10
    ensures Print((n * 10 + a) * 10 + b) == Print(n) + [DIGITS[a], DIGITS[b]]
  {
    OneMoreDigit(n, a);
    OneMoreDigit(n * 10 + a, b);
  }

  lemma OneMoreDigit(n: nat, d: nat)
    requires n > 0 && d < 10
    ensures Print(n * 10 + d) == Print(n) + [DIGITS[d]]
  {
    assert (n * 10 + d) / 10 == n && (n * 10 + d) % 10 == d;
  }

  lemma PrintedMaximum()
    ensures Print(MAX_INT) == "9223372036854775807"
  {
    TwoMoreDigits(922, 3, 3);
    TwoMoreDigits(92233, 7, 2);
    TwoMoreDigits(9223372, 0, 3);
    TwoMoreDigits(922337203, 6, 8);
    TwoMoreDigits(92233720368, 5, 4);
    TwoMoreDigits(9223372036854, 7, 7);
    TwoMoreDigits(922337203685477, 5, 8);
    TwoMoreDigits(92233720368547758, 0, 7);
    assert Print(922) == "922";
  }

  /** Digits, perhaps behind a minus sign. */
  predicate IsNumeral(s: string) {
    s != "" && forall k :: 0 <= k < |s| ==> IsDigit(s[k]) || s[k] == '-'
  }

  lemma PrintedNumeral(n: int)
    ensures IsNumeral(PrintInt(n))
  {
    PrintedDigits(if n < 0 then -n else n);
  }
}
