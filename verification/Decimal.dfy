/** Decimal numerals as Rust prints and parses them, and its 64-bit casts. */
module Decimals {
  import opened Bytes

  const I64_MIN := -0x8000_0000_0000_0000
  const I64_MAX := 0x7FFF_FFFF_FFFF_FFFF
  const USIZE_MAX := 0xFFFF_FFFF_FFFF_FFFF

  const PLUS: byte := 43
  const MINUS: byte := 45
  const ZERO: byte := 48

  predicate IsDigit(b: byte) {
    48 <= b <= 57
  }

  predicate AllDigits(s: Bytes) {
    forall i :: 0 <= i < |s| ==> IsDigit(s[i])
  }

  /** `n.to_string()` */
  function Print(n: nat): (s: Bytes)
    ensures s != [] && AllDigits(s)
    ensures |s| > 1 ==> s[0] != ZERO
    decreases n
  {
    if n < 10 then [48 + n] else Print(n / 10) + [48 + n % 10]
  }

  function PrintInt(i: int): Bytes {
    if i < 0 then [MINUS] + Print(-i) else Print(i)
  }

  function DigitsValue(s: Bytes): nat
    requires AllDigits(s)
  {
    if s == [] then 0 else 10 * DigitsValue(s[..|s| - 1]) + (s[|s| - 1] - 48)
  }

  function ParseDigits(s: Bytes): Option<nat> {
    if s != [] && AllDigits(s) then Some(DigitsValue(s)) else None
  }

  /** `s.parse::<usize>()`: a leading plus sign is accepted. */
  function ParseUsize(s: Bytes): (r: Option<nat>)
    ensures r.Some? ==> r.value <= USIZE_MAX
  {
    var digits := if s != [] && s[0] == PLUS then s[1..] else s;
    match ParseDigits(digits)
    case Some(n) => if n <= USIZE_MAX then Some(n) else None
    case None => None
  }

  /** `s.parse::<i64>()` */
  function ParseI64(s: Bytes): (r: Option<int>)
    ensures r.Some? ==> I64_MIN <= r.value <= I64_MAX
  {
    var negative := s != [] && s[0] == MINUS;
    var digits := if s != [] && (s[0] == PLUS || s[0] == MINUS) then s[1..] else s;
    match ParseDigits(digits)
    case Some(n) =>
      var i: int := if negative then 0 - n else n;
      if I64_MIN <= i <= I64_MAX then Some(i) else None
    case None => None
  }

  lemma {:induction false} PrintedDigits(n: nat)
    ensures ParseDigits(Print(n)) == Some(n)
    decreases n
  {
    if n >= 10 {
      PrintedDigits(n / 10);
      assert Print(n)[..|Print(n)| - 1] == Print(n / 10);
    } else {
      assert DigitsValue([48 + n]) == 10 * DigitsValue([]) + n;
    }
  }

  lemma PrintedUsize(n: nat)
    requires n <= USIZE_MAX
    ensures ParseUsize(Print(n)) == Some(n)
  {
    PrintedDigits(n);
    assert IsDigit(Print(n)[0]);
  }

  lemma PrintedI64(i: int)
    requires I64_MIN <= i <= I64_MAX
    ensures ParseI64(PrintInt(i)) == Some(i)
  {
    if i < 0 {
      PrintedDigits(-i);
      assert PrintInt(i)[1..] == Print(-i);
    } else {
      PrintedDigits(i);
      assert IsDigit(Print(i)[0]);
    }
  }

  lemma {:induction false} LeadingDigit(s: Bytes)
    requires s != [] && AllDigits(s) && s[0] != ZERO
    ensures DigitsValue(s) >= 1
  {
    if |s| > 1 {
      LeadingDigit(s[..|s| - 1]);
    }
  }

  /** Digits without a leading zero are how their value is printed. */
  lemma {:induction false} PrintOfDigits(s: Bytes)
    requires s != [] && AllDigits(s) && (|s| == 1 || s[0] != ZERO)
    ensures Print(DigitsValue(s)) == s
  {
    var n := |s| - 1;
    if n > 0 {
      LeadingDigit(s[..n]);
      PrintOfDigits(s[..n]);
      assert DigitsValue(s) / 10 == DigitsValue(s[..n]) && DigitsValue(s) % 10 == s[n] - 48;
    } else {
      assert s[..0] == [];
    }
  }

  // ----- casts between 64-bit types

  /** `n as i64` and, on a 64-bit target, `i as usize` or `i as u64` */
  function AsI64(n: nat): (i: int)
    requires n <= USIZE_MAX
    ensures I64_MIN <= i <= I64_MAX
  {
    if n <= I64_MAX then n else n - (USIZE_MAX + 1)
  }

  function AsUsize(i: int): (n: nat)
    ensures n <= USIZE_MAX
    ensures I64_MIN <= i <= I64_MAX ==> AsI64(n) == i
  {
    i % (USIZE_MAX + 1)
  }

  lemma CastsOfZero()
    ensures AsI64(0) == 0
  {
  }

  lemma CastsInvert(n: nat)
    requires n <= USIZE_MAX
    ensures AsUsize(AsI64(n)) == n
  {
  }
}
