/** Rust's fixed-width unsigned integers, `uN::from_str` for decimal text and
    the decimal rendering of `Display` for unsigned numbers. */
module Decimal {
  import opened Wrappers

  type u8 = x: nat | x < 0x100
  type u16 = x: nat | x < 0x1_0000
  type u32 = x: nat | x < 0x1_0000_0000
  type u64 = x: nat | x < 0x1_0000_0000_0000_0000

  const U16_BOUND: nat := 0x1_0000
  const U32_BOUND: nat := 0x1_0000_0000
  const U64_BOUND: nat := 0x1_0000_0000_0000_0000

  /** `+` on `u32` and `u64` in a release build, which wraps around. */
  function Wrap32(x: nat): u32 {
    x % U32_BOUND
  }

  function Wrap64(x: nat): u64 {
    x % U64_BOUND
  }

  predicate IsDigit(c: char) {
    '0' <= c <= '9'
  }

  predicate AllDigits(s: string) {
    forall i :: 0 <= i < |s| ==> IsDigit(s[i])
  }

  function DigitValue(c: char): nat
    requires IsDigit(c)
  {
    c as int - '0' as int
  }

  function DigitChar(d: nat): (c: char)
    requires d < 10
    ensures IsDigit(c) && DigitValue(c) == d
  {
    ('0' as int + d) as char
  }

  /** The number a string of decimal digits denotes (most significant first). */
  function DigitsValue(s: string): nat
    requires AllDigits(s)
  {
    if s == [] then 0 else DigitsValue(s[..|s| - 1]) * 10 + DigitValue(s[|s| - 1])
  }

  /** `n` rendered in decimal, without leading zeros, as `{}` formats it. */
  function NatToString(n: nat): (r: string)
    ensures r != [] && AllDigits(r) && DigitsValue(r) == n
    ensures |r| > 1 ==> r[0] != '0'
    decreases n
  {
    if n < 10 then [DigitChar(n)]
    else
      var prefix := NatToString(n / 10);
      var r := prefix + [DigitChar(n % 10)];
      assert r[..|r| - 1] == prefix;
      r
  }

  /** `uN::from_str` with `bound == 2^N`: optionally one leading `+`, then one
      or more decimal digits whose value is below `bound`. */
  function ParseUnsigned(s: string, bound: nat): (r: Option<nat>)
    ensures r.Some? ==> r.value < bound
    ensures r.Some? <==>
      (var d := if s != [] && s[0] == '+' then s[1..] else s;
       d != [] && AllDigits(d) && DigitsValue(d) < bound)
    ensures r.Some? ==>
      (var d := if s[0] == '+' then s[1..] else s; r.value == DigitsValue(d))
  {
    var d := if s != [] && s[0] == '+' then s[1..] else s;
    if d != [] && AllDigits(d) && DigitsValue(d) < bound then Some(DigitsValue(d)) else None
  }

  function ParseU16(s: string): (r: Option<u16>)
    ensures r.Some? <==> ParseUnsigned(s, U16_BOUND).Some?
    ensures r.Some? ==> r.value == ParseUnsigned(s, U16_BOUND).value
  {
    match ParseUnsigned(s, U16_BOUND)
    case None => None
    case Some(v) => Some(v)
  }

  function ParseU32(s: string): (r: Option<u32>)
    ensures r.Some? <==> ParseUnsigned(s, U32_BOUND).Some?
    ensures r.Some? ==> r.value == ParseUnsigned(s, U32_BOUND).value
  {
    match ParseUnsigned(s, U32_BOUND)
    case None => None
    case Some(v) => Some(v)
  }

  function ParseU64(s: string): (r: Option<u64>)
    ensures r.Some? <==> ParseUnsigned(s, U64_BOUND).Some?
    ensures r.Some? ==> r.value == ParseUnsigned(s, U64_BOUND).value
  {
    match ParseUnsigned(s, U64_BOUND)
    case None => None
    case Some(v) => Some(v)
  }

  /** Parsing what `{}` printed gives back the number. */
  lemma ParseNatToString(n: nat, bound: nat)
    requires n < bound
    ensures ParseUnsigned(NatToString(n), bound) == Some(n)
  {
    var s := NatToString(n);
    assert s[0] != '+' by {
      assert IsDigit(s[0]);
    }
  }

  lemma ParseU16NatToString(n: u16)
    ensures ParseU16(NatToString(n)) == Some(n)
  {
    ParseNatToString(n, U16_BOUND);
  }

  /** Rendering is injective: distinct numbers print differently. */
  lemma NatToStringInjective(m: nat, n: nat)
    requires NatToString(m) == NatToString(n)
    ensures m == n
  {
    assert DigitsValue(NatToString(m)) == m;
  }
}
