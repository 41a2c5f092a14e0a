/**
 * `strconv.ParseUint(s, 10, bitSize)` as the session handler uses it for the
 * privilege-drop identifiers, and Go's `uint32(...)` conversion.
 */
module Decimal {
  import opened Wrappers

  predicate IsDigit(c: char)
  {
    '0' <= c <= '9'
  }

  predicate AllDigits(s: string)
  {
    forall i :: 0 <= i < |s| ==> IsDigit(s[i])
  }

  function DigitValue(c: char): (d: nat)
    requires IsDigit(c)
    ensures d < 10
  {
    c as int - '0' as int
  }

  function DigitChar(d: nat): (c: char)
    requires d < 10
    ensures IsDigit(c) && DigitValue(c) == d
  {
    ('0' as int + d) as char
  }

  /** The number a string of decimal digits denotes, most significant first. */
  function DigitsValue(s: string): nat
    requires AllDigits(s)
  {
    if s == [] then 0 else DigitsValue(s[..|s| - 1]) * 10 + DigitValue(s[|s| - 1])
  }

  function Pow2(n: nat): (p: nat)
    ensures p >= 1
  {
    if n == 0 then 1 else 2 * Pow2(n - 1)
  }

  /**
   * `strconv.ParseUint(s, 10, bitSize)` seen through its error result: base 10
   * admits only the digits 0-9 (no sign, no prefix, no underscores), the empty
   * string is a syntax error, and a value that does not fit in `bitSize` bits
   * is a range error.
   */
  function ParseUint(s: string, bitSize: nat): (r: Option<nat>)
    requires 0 < bitSize <= 64
    ensures r.Some? ==> r.value < Pow2(bitSize)
    ensures r.Some? ==> s != [] && AllDigits(s) && DigitsValue(s) == r.value
  {
    if s == [] || !AllDigits(s) then None
    else if DigitsValue(s) >= Pow2(bitSize) then None
    else Some(DigitsValue(s))
  }

  /** The canonical decimal spelling of `n` (no leading zeros). */
  function Format(n: nat): (s: string)
    ensures s != [] && AllDigits(s)
  {
    if n < 10 then [DigitChar(n)] else Format(n / 10) + [DigitChar(n % 10)]
  }

  lemma {:induction false} DigitsValueFormat(n: nat)
    ensures DigitsValue(Format(n)) == n
  {
    if n >= 10 {
      var s := Format(n);
      assert s[..|s| - 1] == Format(n / 10);
      DigitsValueFormat(n / 10);
    }
  }

  /** Every value that fits in `bitSize` bits parses back from its decimal spelling. */
  lemma ParseUintFormat(n: nat, bitSize: nat)
    requires 0 < bitSize <= 64
    requires n < Pow2(bitSize)
    ensures ParseUint(Format(n), bitSize) == Some(n)
  {
    DigitsValueFormat(n);
  }

  /** Parsing succeeds exactly on non-empty digit strings whose value fits. */
  lemma ParseUintAccepts(s: string, bitSize: nat)
    requires 0 < bitSize <= 64
    ensures ParseUint(s, bitSize).Some? <==> s != [] && AllDigits(s) && DigitsValue(s) < Pow2(bitSize)
  {
  }

  lemma {:induction false} Pow2Add(a: nat, b: nat)
    ensures Pow2(a + b) == Pow2(a) * Pow2(b)
  {
    if a > 0 {
      Pow2Add(a - 1, b);
    }
  }

  lemma Pow2Of32()
    ensures Pow2(32) == 0x1_0000_0000
  {
    assert Pow2(8) == 256;
    Pow2Add(8, 8);
    Pow2Add(16, 16);
  }

  /** `uint32(n)`: reduction modulo 2^32 (Go's conversion wraps). */
  function Uint32(n: int): (r: nat)
    ensures r < 0x1_0000_0000
    ensures (r - n) % 0x1_0000_0000 == 0
  {
    n % 0x1_0000_0000
  }

  /**
   * With bitSize 32 the `uint32(...)` conversion after `ParseUint` loses
   * nothing: the parsed value is already below 2^32.
   */
  lemma Uint32OfParsed(s: string)
    requires ParseUint(s, 32).Some?
    ensures Uint32(ParseUint(s, 32).value) == ParseUint(s, 32).value
  {
    Pow2Of32();
  }

  /** Signs and the empty string are syntax errors for an unsigned base-10 parse. */
  lemma ParseUintRejectsSignsAndEmpty(s: string)
    ensures ParseUint("", 32) == None
    ensures ParseUint("-" + s, 32) == None && ParseUint("+" + s, 32) == None
  {
    assert !IsDigit(("-" + s)[0]) && !IsDigit(("+" + s)[0]);
  }

  /** 2^32 - 1 is the largest identifier accepted; 2^32 is a range error. */
  lemma ParseUintLimit()
    ensures ParseUint(Format(Pow2(32) - 1), 32) == Some(0xFFFF_FFFF)
    ensures ParseUint(Format(Pow2(32)), 32) == None
  {
    Pow2Of32();
    ParseUintFormat(Pow2(32) - 1, 32);
    DigitsValueFormat(Pow2(32));
  }
}
