/**
 Bytes, little-endian integers, and the notion of one byte string occurring inside another
 at a given offset. Everything that reads or writes a binary layout is stated over these.
 */
module Bytes {

  type byte = b: int | 0 <= b < 256

  /** 256 to the power n: the number of values an n-byte field can hold. */
  function Pow256(n: nat): (r: nat)
    ensures r > 0
  {
    if n == 0 then 1 else 256 * Pow256(n - 1)
  }

  function FromLE(s: seq<byte>): (v: nat)
    ensures v < Pow256(|s|)
  {
    if |s| == 0 then 0 else s[0] + 256 * FromLE(s[1..])
  }

  function ToLE(v: nat, n: nat): (s: seq<byte>)
    ensures |s| == n
  {
    if n == 0 then [] else [v % 256] + ToLE(v / 256, n - 1)
  }

  lemma {:induction false} LEDecodesEncoding(v: nat, n: nat)
    requires v < Pow256(n)
    ensures FromLE(ToLE(v, n)) == v
  {
    if n > 0 {
      LEDecodesEncoding(v / 256, n - 1);
      assert ToLE(v, n)[1..] == ToLE(v / 256, n - 1);
    }
  }

  lemma {:induction false} LEEncodesDecoding(s: seq<byte>)
    ensures ToLE(FromLE(s), |s|) == s
  {
    if |s| > 0 {
      LEEncodesDecoding(s[1..]);
      LowByte(s[0], FromLE(s[1..]));
      assert s == [s[0]] + s[1..];
    }
  }

  lemma LowByte(b: byte, rest: nat)
    ensures (b + 256 * rest) % 256 == b && (b + 256 * rest) / 256 == rest
  {
  }

  /** Two's-complement reading of an n-byte field. */
  function Signed(u: nat, n: nat): int
  {
    if 2 * u >= Pow256(n) then u - Pow256(n) else u
  }

  /** Two and four bytes, the low one first. */
  function U16(s: seq<byte>, p: nat): nat
    requires p + 2 <= |s|
  {
    s[p] as int + 256 * s[p + 1] as int
  }

  function U32(s: seq<byte>, p: nat): nat
    requires p + 4 <= |s|
  {
    s[p] as int + 256 * s[p + 1] as int + 65536 * s[p + 2] as int + 16777216 * s[p + 3] as int
  }

  /** Numbers with their top bit as the sign. */
  function Signed8(b: byte): int { if b < 128 then b as int else b as int - 256 }
  function Signed16(u: nat): int { if u < 32768 then u else u - 65536 }
  function Signed32(u: nat): int { if u < 2147483648 then u else u - 4294967296 }
  function Signed64(u: nat): int { if u < 9223372036854775808 then u else u - 18446744073709551616 }

  function U64(s: seq<byte>, p: nat): nat
    requires p + 8 <= |s|
  {
    U32(s, p) + 4294967296 * U32(s, p + 4)
  }

  /** Byte by byte: the low byte comes first. */
  lemma LowByteFirst(s: seq<byte>)
    ensures |s| == 1 ==> FromLE(s) == s[0]
    ensures |s| == 2 ==> FromLE(s) == s[0] as int + 256 * s[1] as int
    ensures |s| == 4 ==> FromLE(s) == s[0] as int + 256 * s[1] as int + 65536 * s[2] as int + 16777216 * s[3] as int
    ensures |s| == 8 ==> FromLE(s) == FromLE(s[..4]) + 4294967296 * FromLE(s[4..])
  {
    if |s| == 1 {
      OneByte(s);
    } else if |s| == 2 {
      OneByte(s[1..]);
    } else if |s| == 4 {
      FourBytes(s);
    } else if |s| == 8 {
      FourBytes(s[..4]);
      assert s[..4] + s[4..] == s;
      EightBytes(s);
    }
  }

  lemma OneByte(s: seq<byte>)
    requires |s| == 1
    ensures FromLE(s) == s[0]
  {
    assert s[1..] == [];
  }

  lemma FourBytes(s: seq<byte>)
    requires |s| >= 4
    ensures FromLE(s) == s[0] as int + 256 * s[1] as int + 65536 * s[2] as int + 16777216 * s[3] as int + 4294967296 * FromLE(s[4..])
  {
    assert s[1..][1..] == s[2..] && s[2..][1..] == s[3..] && s[3..][1..] == s[4..];
    assert FromLE(s[3..]) == s[3] as int + 256 * FromLE(s[4..]);
    assert FromLE(s[2..]) == s[2] as int + 256 * FromLE(s[3..]);
    assert FromLE(s[1..]) == s[1] as int + 256 * FromLE(s[2..]);
  }

  lemma EightBytes(s: seq<byte>)
    requires |s| == 8
    ensures FromLE(s) == FromLE(s[..4]) + 4294967296 * FromLE(s[4..])
  {
    FourBytes(s);
    FourBytes(s[..4]);
    assert s[..4][4..] == [];
  }

  /** The top bit is the sign. */
  lemma TopBitIsSign(u: nat)
    ensures u < 256 ==> Signed(u, 1) == if u < 128 then u else u - 256
    ensures u < 65536 ==> Signed(u, 2) == if u < 32768 then u else u - 65536
    ensures u < 4294967296 ==> Signed(u, 4) == if u < 2147483648 then u else u - 4294967296
    ensures u < 18446744073709551616 ==>
              Signed(u, 8) == if u < 9223372036854775808 then u else u - 18446744073709551616
  {
    assert Pow256(2) == 65536 && Pow256(4) == 4294967296;
    assert Pow256(6) == 281474976710656 && Pow256(8) == 18446744073709551616;
  }

  function Unsigned(i: int, n: nat): int
  {
    if i < 0 then i + Pow256(n) else i
  }

  predicate FitsSigned(i: int, n: nat)
  {
    var m: int := Pow256(n);
    -m <= 2 * i < m
  }

  predicate FitsUnsigned(i: int, n: nat)
  {
    0 <= i < Pow256(n)
  }

  /** e occurs in s at offset p. */
  predicate At(s: seq<byte>, p: nat, e: seq<byte>)
    ensures At(s, p, e) ==> p + |e| <= |s|
  {
    p + |e| <= |s| && s[p..p + |e|] == e
  }

  lemma AtConcat(s: seq<byte>, p: nat, a: seq<byte>, b: seq<byte>)
    ensures At(s, p, a + b) <==> At(s, p, a) && At(s, p + |a|, b)
  {
    var e := a + b;
    if At(s, p, e) {
      assert a == e[..|a|] && b == e[|a|..];
      assert s[p..p + |a|] == s[p..p + |e|][..|a|];
      assert s[p + |a|..p + |a| + |b|] == s[p..p + |e|][|a|..];
    }
    if At(s, p, a) && At(s, p + |a|, b) {
      assert s[p..p + |e|] == s[p..p + |a|] + s[p + |a|..p + |a| + |b|];
    }
  }

  lemma AtShifted(pre: seq<byte>, s: seq<byte>, p: nat, e: seq<byte>)
    ensures At(pre + s, |pre| + p, e) <==> At(s, p, e)
  {
    if p + |e| <= |s| {
      assert (pre + s)[|pre| + p..|pre| + p + |e|] == s[p..p + |e|];
    }
  }

  lemma AtNothing(s: seq<byte>, p: nat)
    ensures At(s, p, []) <==> p <= |s|
  {
  }
}
