/**
 * Lower-case hexadecimal text for numbers and for strings (six digits per
 * code point). The token and hash encodings are built from it, so that
 * they contain no space, no '.' and no '$'.
 */
module Hex {
  import opened Wrappers

  predicate IsHexDigit(c: char) {
    ('0' <= c <= '9') || ('a' <= c <= 'f')
  }

  predicate AllHex(s: string) {
    forall i :: 0 <= i < |s| ==> IsHexDigit(s[i])
  }

  function Digit(d: nat): (c: char)
    requires d < 16
    ensures IsHexDigit(c)
  {
    if d < 10 then ('0' as int + d) as char else ('a' as int + d - 10) as char
  }

  function DigitValue(c: char): (d: nat)
    requires IsHexDigit(c)
    ensures d < 16
  {
    if '0' <= c <= '9' then c as int - '0' as int else c as int - 'a' as int + 10
  }

  lemma DigitRoundTrip(d: nat)
    requires d < 16
    ensures DigitValue(Digit(d)) == d
  {
  }

  /** The number a string of hex digits denotes, most significant digit first. */
  function ValueOf(s: string): nat
    requires AllHex(s)
    decreases |s|
  {
    if |s| == 0 then 0 else ValueOf(s[..|s| - 1]) * 16 + DigitValue(s[|s| - 1])
  }

  /** The shortest hex numeral of `n`. */
  function EncodeNat(n: nat): (s: string)
    ensures |s| >= 1 && AllHex(s)
  {
    if n < 16 then [Digit(n)] else EncodeNat(n / 16) + [Digit(n % 16)]
  }

  function DecodeNat(s: string): Option<nat> {
    if |s| >= 1 && AllHex(s) then Some(ValueOf(s)) else None
  }

  lemma {:induction false} ValueOfEncodeNat(n: nat)
    ensures ValueOf(EncodeNat(n)) == n
  {
    if n >= 16 {
      var s := EncodeNat(n);
      assert s[..|s| - 1] == EncodeNat(n / 16);
      ValueOfEncodeNat(n / 16);
      DigitRoundTrip(n % 16);
    } else {
      DigitRoundTrip(n);
    }
  }

  lemma DecodeEncodeNat(n: nat)
    ensures DecodeNat(EncodeNat(n)) == Some(n)
  {
    ValueOfEncodeNat(n);
  }

  function Pow16(w: nat): (p: nat)
    ensures p >= 1
  {
    if w == 0 then 1 else 16 * Pow16(w - 1)
  }

  /** Exactly `w` hex digits denoting `n` modulo 16^w. */
  function Fixed(n: nat, w: nat): (s: string)
    ensures |s| == w && AllHex(s)
  {
    if w == 0 then [] else Fixed(n / 16, w - 1) + [Digit(n % 16)]
  }

  lemma {:induction false} ValueOfFixed(n: nat, w: nat)
    requires n < Pow16(w)
    ensures ValueOf(Fixed(n, w)) == n
  {
    if w > 0 {
      var s := Fixed(n, w);
      assert s[..w - 1] == Fixed(n / 16, w - 1);
      assert n / 16 < Pow16(w - 1);
      ValueOfFixed(n / 16, w - 1);
      DigitRoundTrip(n % 16);
    }
  }

  const CharWidth: nat := 6

  predicate IsScalarValue(v: int) {
    (0 <= v < 0xD800) || (0xE000 <= v < 0x11_0000)
  }

  /** Six hex digits per code point. */
  function EncodeString(s: string): (h: string)
    ensures |h| == CharWidth * |s| && AllHex(h)
  {
    if |s| == 0 then [] else Fixed(s[0] as int, CharWidth) + EncodeString(s[1..])
  }

  function DecodeString(h: string): Option<string>
    decreases |h|
  {
    if |h| == 0 then Some([])
    else if |h| < CharWidth || !AllHex(h[..CharWidth]) then None
    else
      var v := ValueOf(h[..CharWidth]);
      if !IsScalarValue(v) then None
      else match DecodeString(h[CharWidth..])
        case None => None
        case Some(rest) => Some([v as char] + rest)
  }

  lemma {:induction false} DecodeEncodeString(s: string)
    ensures DecodeString(EncodeString(s)) == Some(s)
  {
    if |s| > 0 {
      var h := EncodeString(s);
      assert h[..CharWidth] == Fixed(s[0] as int, CharWidth);
      assert h[CharWidth..] == EncodeString(s[1..]);
      ValueOfFixed(s[0] as int, CharWidth);
      DecodeEncodeString(s[1..]);
      assert s == [s[0]] + s[1..];
    }
  }
}
