/** Text as code points, the decimal rendering of integers, and UTF-16 and UTF-8 conversion. */
module Texts {
  import opened Bytes

  type Text = seq<nat>

  function Digits(n: nat): (s: seq<byte>)
    ensures |s| > 0
    ensures forall i :: 0 <= i < |s| ==> 48 <= s[i] <= 57
  {
    if n < 10 then [48 + n] else Digits(n / 10) + [48 + n % 10]
  }

  function Itoa(n: int): (s: seq<byte>)
    ensures |s| > 0
  {
    if n < 0 then [45] + Digits(-n) else Digits(n)
  }

  function Value(s: seq<byte>): (n: nat)
    requires forall i :: 0 <= i < |s| ==> 48 <= s[i] <= 57
  {
    if |s| == 0 then 0 else 10 * Value(s[..|s| - 1]) + (s[|s| - 1] - 48)
  }

  lemma {:induction false} DigitsRoundTrip(n: nat)
    ensures Value(Digits(n)) == n
  {
    var s := Digits(n);
    if n < 10 {
      assert s[..|s| - 1] == [];
    } else {
      assert s[..|s| - 1] == Digits(n / 10);
      DigitsRoundTrip(n / 10);
    }
  }

  /** Distinct numbers are written differently. */
  lemma ItoaInjective(a: int, b: int)
    requires Itoa(a) == Itoa(b)
    ensures a == b
  {
    if a < 0 {
      assert Itoa(a)[0] == 45;
      assert b < 0;
      assert Digits(-a) == Itoa(a)[1..] == Itoa(b)[1..] == Digits(-b);
      DigitsRoundTrip(-a);
      DigitsRoundTrip(-b);
    } else {
      assert Itoa(a)[0] != 45;
      DigitsRoundTrip(a);
      DigitsRoundTrip(b);
    }
  }

  /** Does `needle` occur in t? */
  predicate Contains(t: Text, needle: Text)
  {
    |needle| <= |t| && (t[..|needle|] == needle || (|t| > 0 && Contains(t[1..], needle)))
  }

  predicate HighSurrogate(u: nat) { 0xD800 <= u < 0xDC00 }
  predicate LowSurrogate(u: nat) { 0xDC00 <= u < 0xE000 }

  /** Surrogate pairs combine; a surrogate without its partner becomes U+FFFD. */
  function Utf16Decode(u: seq<nat>): (t: Text)
    ensures |t| <= |u|
  {
    if |u| == 0 then []
    else if |u| > 1 && HighSurrogate(u[0]) && LowSurrogate(u[1]) then
      [(u[0] - 0xD800) * 0x400 + (u[1] - 0xDC00) + 0x10000] + Utf16Decode(u[2..])
    else if 0xD800 <= u[0] < 0xE000 then [0xFFFD] + Utf16Decode(u[1..])
    else [u[0]] + Utf16Decode(u[1..])
  }

  /** The 16-bit units of an even number of bytes, little-endian. */
  function Units(s: seq<byte>): (u: seq<nat>)
    ensures |u| == |s| / 2
  {
    if |s| < 2 then [] else [s[0] as nat + 256 * s[1] as nat] + Units(s[2..])
  }

  function EncUnits(u: seq<nat>): (s: seq<byte>)
    requires forall i :: 0 <= i < |u| ==> u[i] < 65536
    ensures |s| == 2 * |u|
  {
    if |u| == 0 then [] else [u[0] % 256, u[0] / 256] + EncUnits(u[1..])
  }

  lemma {:induction false} UnitsDecodeEncoding(u: seq<nat>)
    requires forall i :: 0 <= i < |u| ==> u[i] < 65536
    ensures Units(EncUnits(u)) == u
  {
    if |u| > 0 {
      UnitsDecodeEncoding(u[1..]);
      assert EncUnits(u)[2..] == EncUnits(u[1..]);
    }
  }

  /** A 16-bit code point in UTF-8; surrogates are written as U+FFFD. */
  function Utf8(r: nat): (s: seq<byte>)
    requires r < 0x10000
    ensures 1 <= |s| <= 3
  {
    if r < 0x80 then [r]
    else if r < 0x800 then [0xC0 + r / 64, 0x80 + r % 64]
    else if 0xD800 <= r < 0xE000 then [0xEF, 0xBF, 0xBD]
    else [0xE0 + r / 4096, 0x80 + r / 64 % 64, 0x80 + r % 64]
  }
}
