/** Decimal printing (%d) and parsing (strconv.ParseInt, strconv.Atoi) of integers. */
module Decimal {
  import opened Options

  const INT32_MAX := 0x7fff_ffff
  const INT64_MAX := 0x7fff_ffff_ffff_ffff

  predicate IsDigit(c: char) {
    '0' <= c <= '9'
  }

  predicate AllDigits(s: string) {
    forall i :: 0 <= i < |s| ==> IsDigit(s[i])
  }

  function DigitOf(d: nat): (c: char)
    requires d < 10
    ensures IsDigit(c) && ValueOf(c) == d
  {
    '0' + d as char
  }

  function ValueOf(c: char): nat
    requires IsDigit(c)
  {
    c as nat - '0' as nat
  }

  function PrintNat(n: nat): (s: string)
    ensures s != "" && AllDigits(s)
  {
    if n < 10 then [DigitOf(n)] else PrintNat(n / 10) + [DigitOf(n % 10)]
  }

  function NatOf(s: string): (n: int)
    requires AllDigits(s)
    ensures n >= 0
  {
    if s == "" then 0 else NatOf(s[..|s| - 1]) * 10 + ValueOf(s[|s| - 1])
  }

  lemma {:induction false} NatBack(n: nat)
    ensures NatOf(PrintNat(n)) == n
  {
    if n >= 10 {
      NatBack(n / 10);
      assert PrintNat(n)[..|PrintNat(n)| - 1] == PrintNat(n / 10);
    } else {
      assert PrintNat(n)[..0] == "";
    }
  }

  function PrintInt(i: int): string {
    if i < 0 then "-" + PrintNat(-i) else PrintNat(i)
  }

  /** A sign is optional; anything but digits, nothing at all, and numbers outside -max-1..max are errors. */
  function ParseInt(s: string, max: int): (r: Option<int>)
    ensures r.Some? ==> -max - 1 <= r.value <= max
  {
    var signed := s != "" && (s[0] == '-' || s[0] == '+');
    var digits := if signed then s[1..] else s;
    if digits == "" || !AllDigits(digits) then None
    else
      var n: int := if signed && s[0] == '-' then -NatOf(digits) else NatOf(digits);
      if -max - 1 <= n <= max then Some(n) else None
  }

  /** A text stands for a number: decimal digits, perhaps behind a sign. */
  ghost predicate StandsFor(s: string, digits: string, n: int) {
    && digits != "" && AllDigits(digits)
    && (((s == digits || s == ['+'] + digits) && n == NatOf(digits)) || (s == ['-'] + digits && n == -NatOf(digits)))
  }

  /** Any text is parsed as a number if and only if it stands for it and the number is in range. */
  lemma ParseIff(s: string, max: int, n: int)
    ensures ParseInt(s, max) == Some(n) <==> -max - 1 <= n <= max && exists digits :: StandsFor(s, digits, n)
  {
    if ParseInt(s, max) == Some(n) {
      var signed := s[0] == '-' || s[0] == '+';
      var digits := if signed then s[1..] else s;
      assert signed ==> s == [s[0]] + digits;
      assert StandsFor(s, digits, n);
    }
    if digits :| StandsFor(s, digits, n) {
      assert IsDigit(digits[0]);
      assert s != digits ==> s[1..] == digits;
    }
  }

  function InRange(n: int, max: int): Option<int> {
    if -max - 1 <= n <= max then Some(n) else None
  }

  lemma ParseDigits(digits: string, max: int)
    requires digits != "" && AllDigits(digits)
    ensures ParseInt(digits, max) == InRange(NatOf(digits), max)
  {
    assert IsDigit(digits[0]);
  }

  lemma ParseNegative(digits: string, max: int)
    requires digits != "" && AllDigits(digits)
    ensures ParseInt("-" + digits, max) == InRange(-NatOf(digits), max)
  {
    assert ("-" + digits)[1..] == digits;
  }

  /** What is printed is read back, provided it fits. */
  lemma IntBack(i: int, max: int)
    ensures ParseInt(PrintInt(i), max) == if -max - 1 <= i <= max then Some(i) else None
  {
    if i < 0 {
      NatBack(-i);
      ParseNegative(PrintNat(-i), max);
    } else {
      NatBack(i);
      ParseDigits(PrintNat(i), max);
    }
  }

  lemma PrintIntChars(i: int, c: char)
    requires c != '-' && !IsDigit(c)
    ensures c !in PrintInt(i)
  {
  }
}
