/**
 The Odin format byte by byte, in plain numbers: what every opcode takes from the blob and the token
 it adds. Nothing here goes through the layout the other theorems compare the decoder with.
 */
module OdinWire {
  import opened Common
  import opened Bytes
  import opened Cursors
  import opened Texts
  import opened Odin

  /** The state with one more token of this kind at the present depth. */
  function With(st: DState, kind: Kind, name: Text, value: Val): DState
  {
    DState(st.toks + [Tok(kind, name, value, [], 0, [], st.depth)], st.depth, st.cache)
  }

  lemma SignedBytes(s: seq<byte>, p: nat)
    ensures p < |s| ==> IntAt(s, p, 1) == Ok(Signed8(s[p]), p + 1)
    ensures p + 2 <= |s| ==> IntAt(s, p, 2) == Ok(Signed16(U16(s, p)), p + 2)
    ensures p + 4 <= |s| ==> IntAt(s, p, 4) == Ok(Signed32(U32(s, p)), p + 4)
    ensures p + 8 <= |s| ==> IntAt(s, p, 8) == Ok(Signed64(U64(s, p)), p + 8)
  {
    hide UintAt, Signed;
    FieldBytes(s, p);
    if p < |s| {
      TopBitIsSign(s[p] as nat);
    }
    if p + 2 <= |s| {
      TopBitIsSign(U16(s, p));
    }
    if p + 4 <= |s| {
      TopBitIsSign(U32(s, p));
    }
    if p + 8 <= |s| {
      TopBitIsSign(U64(s, p));
    }
  }

  /** A string is a flag, a length in four bytes, and then one byte for each character, or two if the flag is 1. */
  lemma StringBytes(s: seq<byte>, p: nat)
    requires p + 5 <= |s|
    ensures var n := U32(s, p + 1);
            StrAt(s, p) == if n > 5000000 then Bad(BadLength)
                           else if s[p] == 1 then
                             if p + 5 + 2 * n <= |s| then Ok(Utf16Decode(Units(s[p + 5..p + 5 + 2 * n])), p + 5 + 2 * n) else Bad(Truncated)
                           else if p + 5 + n <= |s| then Ok(s[p + 5..p + 5 + n], p + 5 + n)
                           else Bad(Truncated)
  {
    hide UintAt, IntAt;
    FieldBytes(s, p);
    SignedBytes(s, p + 1);
  }

  /** Plain units stand for themselves, a high and a low surrogate for one code point, a lone one for U+FFFD. */
  lemma UnitsMean(a: nat, b: nat, rest: seq<nat>)
    requires a < 65536 && b < 65536
    ensures a < 0xD800 || a >= 0xE000 ==> Utf16Decode([a] + rest) == [a] + Utf16Decode(rest)
    ensures 0xD800 <= a < 0xDC00 && 0xDC00 <= b < 0xE000 ==>
              Utf16Decode([a, b] + rest) == [65536 + 1024 * (a - 0xD800) + (b - 0xDC00)] + Utf16Decode(rest)
    ensures 0xDC00 <= a < 0xE000 ==> Utf16Decode([a] + rest) == [0xFFFD] + Utf16Decode(rest)
    ensures 0xD800 <= a < 0xDC00 && !(0xDC00 <= b < 0xE000) ==>
              Utf16Decode([a, b] + rest) == [0xFFFD] + Utf16Decode([b] + rest)
    ensures 0xD800 <= a < 0xDC00 ==> Utf16Decode([a]) == [0xFFFD]
  {
    assert ([a] + rest)[1..] == rest && ([a, b] + rest)[2..] == rest && ([a, b] + rest)[1..] == [b] + rest;
  }

  // ---------------------------------------------------------------- scalars

  /** 0x0F to 0x1E: the integers, named and unnamed, signed and unsigned by turns, in 1, 2, 4 and 8 bytes. */
  lemma IntegerOps(s: seq<byte>, p: nat, op: byte, st: DState, name: Text, q: nat)
    requires p <= q <= |s| && 0x0F <= op <= 0x1E
    requires if op % 2 == 1 then StrAt(s, p) == Ok(name, q) else name == [] && q == p
    ensures (op == 0x0F || op == 0x10) && q + 1 <= |s| ==>
              OperandAt(s, p, op, st) == Ok(With(st, SByteTok, name, IntVal(Signed8(s[q]))), q + 1)
    ensures (op == 0x11 || op == 0x12) && q + 1 <= |s| ==>
              OperandAt(s, p, op, st) == Ok(With(st, ByteTok, name, IntVal(s[q] as int)), q + 1)
    ensures (op == 0x13 || op == 0x14) && q + 2 <= |s| ==>
              OperandAt(s, p, op, st) == Ok(With(st, ShortTok, name, IntVal(Signed16(U16(s, q)))), q + 2)
    ensures (op == 0x15 || op == 0x16) && q + 2 <= |s| ==>
              OperandAt(s, p, op, st) == Ok(With(st, UShortTok, name, IntVal(U16(s, q))), q + 2)
    ensures (op == 0x17 || op == 0x18) && q + 4 <= |s| ==>
              OperandAt(s, p, op, st) == Ok(With(st, IntTok, name, IntVal(Signed32(U32(s, q)))), q + 4)
    ensures (op == 0x19 || op == 0x1A) && q + 4 <= |s| ==>
              OperandAt(s, p, op, st) == Ok(With(st, UIntTok, name, IntVal(U32(s, q))), q + 4)
    ensures (op == 0x1B || op == 0x1C) && q + 8 <= |s| ==>
              OperandAt(s, p, op, st) == Ok(With(st, LongTok, name, IntVal(Signed64(U64(s, q)))), q + 8)
    ensures (op == 0x1D || op == 0x1E) && q + 8 <= |s| ==>
              OperandAt(s, p, op, st) == Ok(With(st, ULongTok, name, IntVal(U64(s, q))), q + 8)
  {
    hide UintAt, IntAt, StrAt, Signed8, Signed16, Signed32, Signed64, U16, U32;
    FieldBytes(s, q);
    SignedBytes(s, q);
  }

  /** 0x1F to 0x2C: single, double, decimal, character, string, GUID and truth value. */
  lemma OtherScalarOps(s: seq<byte>, p: nat, op: byte, st: DState, name: Text, q: nat)
    requires p <= q <= |s| && 0x1F <= op <= 0x2C
    requires if op % 2 == 1 then StrAt(s, p) == Ok(name, q) else name == [] && q == p
    ensures (op == 0x1F || op == 0x20) && q + 4 <= |s| ==>
              OperandAt(s, p, op, st) == Ok(With(st, FloatTok, name, F32(U32(s, q))), q + 4)
    ensures (op == 0x21 || op == 0x22) && q + 8 <= |s| ==>
              OperandAt(s, p, op, st) == Ok(With(st, DoubleTok, name, F64(U64(s, q))), q + 8)
    ensures op == 0x23 || op == 0x24 ==>
              OperandAt(s, p, op, st) == Ok(With(st, DecimalTok, name, TextVal([63])), if q + 16 <= |s| then q + 16 else |s|)
    ensures (op == 0x25 || op == 0x26) && q + 2 <= |s| ==>
              OperandAt(s, p, op, st) == Ok(With(st, CharTok, name, TextVal(Utf16Decode([U16(s, q)]))), q + 2)
    ensures (op == 0x27 || op == 0x28) && StrAt(s, q).Ok? ==>
              OperandAt(s, p, op, st) == Ok(With(st, StringTok, name, TextVal(StrAt(s, q).value)), StrAt(s, q).pos)
    ensures op == 0x29 || op == 0x2A ==>
              OperandAt(s, p, op, st) == Ok(With(st, GuidTok, name, TextVal([63])), if q + 16 <= |s| then q + 16 else |s|)
    ensures (op == 0x2B || op == 0x2C) && q + 1 <= |s| ==>
              OperandAt(s, p, op, st) == Ok(With(st, BoolTok, name, BoolVal(s[q] != 0)), q + 1)
  {
    hide UintAt, StrAt, U16, U32;
    FieldBytes(s, q);
  }

  /** Every integer that fits its kind's width can be laid out. */
  lemma IntegersAreLegal(n: int)
    ensures -128 <= n < 128 ==> ScalarOk(Whole(SByteTok, n))
    ensures 0 <= n < 256 ==> ScalarOk(Whole(ByteTok, n))
    ensures -32768 <= n < 32768 ==> ScalarOk(Whole(ShortTok, n))
    ensures 0 <= n < 65536 ==> ScalarOk(Whole(UShortTok, n))
    ensures -2147483648 <= n < 2147483648 ==> ScalarOk(Whole(IntTok, n))
    ensures 0 <= n < 4294967296 ==> ScalarOk(Whole(UIntTok, n))
    ensures -9223372036854775808 <= n < 9223372036854775808 ==> ScalarOk(Whole(LongTok, n))
    ensures 0 <= n < 18446744073709551616 ==> ScalarOk(Whole(ULongTok, n))
  {
    Powers();
    hide Pow256;
  }

  lemma Powers()
    ensures Pow256(1) == 256 && Pow256(2) == 65536 && Pow256(4) == 4294967296 && Pow256(8) == 18446744073709551616
  {
    assert Pow256(6) == 281474976710656;
  }

  /** And so can every float, character and string. */
  lemma OthersAreLegal(n: nat, chars: seq<byte>, units: seq<nat>)
    ensures n < 4294967296 ==> ScalarOk(Single(n))
    ensures n < 18446744073709551616 ==> ScalarOk(Double(n))
    ensures n < 65536 ==> ScalarOk(Chr(n))
    ensures |chars| <= 5000000 ==> ScalarOk(Str(Narrow(0, chars)))
    ensures |units| <= 5000000 && (forall i :: 0 <= i < |units| ==> units[i] < 65536) ==> ScalarOk(Str(Wide(units)))
  {
    Powers();
    hide Pow256;
  }

  // ---------------------------------------------------------------- references and nulls

  /** Two lower-case digits for each byte, the high one first. */
  function HexText(b: seq<byte>): Text
  {
    if |b| == 0 then []
    else
      var h, l := b[0] / 16, b[0] % 16;
      [if h < 10 then 48 + h else 87 + h, if l < 10 then 48 + l else 87 + l] + HexText(b[1..])
  }

  lemma {:induction false} HexIsHex(b: seq<byte>)
    ensures Hex(b) == HexText(b)
    decreases |b|
  {
    if |b| > 0 {
      HexIsHex(b[1..]);
    }
  }

  /** 0x09 to 0x0E, 0x32 and 0x33: references by id, inside and outside the blob, by GUID, and by text. */
  lemma ReferenceOps(s: seq<byte>, p: nat, op: byte, st: DState, name: Text, q: nat)
    requires p <= q <= |s|
    requires if op in {0x09, 0x0B, 0x0D, 0x32} then StrAt(s, p) == Ok(name, q) else name == [] && q == p
    ensures op == 0x09 && q + 4 <= |s| ==>
              OperandAt(s, p, op, st) == Ok(With(st, InternalRef, name, IntVal(Signed32(U32(s, q)))), q + 4)
    ensures op == 0x0A && q + 4 <= |s| ==> OperandAt(s, p, op, st) == Ok(With(st, InternalRef, name, NoVal), q + 4)
    ensures (op == 0x0B || op == 0x0C) && q + 4 <= |s| ==>
              OperandAt(s, p, op, st) == Ok(With(st, ExtRef, name, IntVal(Signed32(U32(s, q)))), q + 4)
    ensures op == 0x0D || op == 0x0E ==>
              var e := if q + 16 <= |s| then q + 16 else |s|;
              OperandAt(s, p, op, st) == Ok(With(st, ExtRef, name, TextVal(HexText(s[q..e]))), e)
    ensures (op == 0x32 || op == 0x33) && StrAt(s, q).Ok? ==>
              OperandAt(s, p, op, st) == Ok(With(st, ExtRef, name, TextVal(StrAt(s, q).value)), StrAt(s, q).pos)
  {
    hide IntAt, StrAt, Hex, HexText, U32, Signed32;
    SignedBytes(s, q);
    HexIsHex(s[q..if q + 16 <= |s| then q + 16 else |s|]);
  }

  /** 0x2D to 0x31 and everything not used: nulls, type marks out of place, the end, and unknown bytes. */
  lemma PlainOps(s: seq<byte>, p: nat, op: byte, st: DState)
    requires p <= |s|
    ensures op == 0x2D && StrAt(s, p).Ok? ==>
              OperandAt(s, p, op, st) == Ok(With(st, NullTok, StrAt(s, p).value, NoVal), StrAt(s, p).pos)
    ensures op == 0x2E ==> OperandAt(s, p, op, st) == Ok(With(st, NullTok, [], NoVal), p)
    ensures op == 0x2F && p + 4 <= |s| && StrAt(s, p + 4).Ok? ==> OperandAt(s, p, op, st) == Ok(st, StrAt(s, p + 4).pos)
    ensures op == 0x30 && p + 4 <= |s| ==> OperandAt(s, p, op, st) == Ok(st, p + 4)
    ensures op == 0x31 ==> OperandAt(s, p, op, st) == Ok(With(st, Eos, [], NoVal), p)
    ensures op == 0 || op >= 0x34 ==> OperandAt(s, p, op, st) == Ok(With(st, Raw, [], IntVal(op as int)), p)
  {
    hide IntAt, StrAt;
    SignedBytes(s, p);
  }

  // ---------------------------------------------------------------- nodes and arrays

  /** The type mark after a node's name: 0x2F an id and a name to remember, 0x30 an id to look up, 0x2E none. */
  lemma MarkBytes(s: seq<byte>, p: nat, cache: map<int, Text>)
    requires p < |s|
    ensures s[p] == 0x2F && p + 5 <= |s| && StrAt(s, p + 5).Ok? ==>
              var id, name := Signed32(U32(s, p + 1)), StrAt(s, p + 5).value;
              TypeMarkAt(s, p, cache) == Ok((name, cache[id := name]), StrAt(s, p + 5).pos)
    ensures s[p] == 0x30 && p + 5 <= |s| && Signed32(U32(s, p + 1)) in cache ==>
              TypeMarkAt(s, p, cache) == Ok((cache[Signed32(U32(s, p + 1))], cache), p + 5)
    ensures s[p] == 0x30 && p + 5 <= |s| && Signed32(U32(s, p + 1)) !in cache ==>
              TypeMarkAt(s, p, cache) == Ok(([35, 105, 100] + Itoa(Signed32(U32(s, p + 1))), cache), p + 5)
    ensures s[p] == 0x2E ==> TypeMarkAt(s, p, cache) == Ok(([], cache), p + 1)
    ensures s[p] < 0x2E || s[p] > 0x30 ==> TypeMarkAt(s, p, cache) == Ok(([], cache), p)
  {
    hide IntAt, StrAt, U32, Itoa;
    SignedBytes(s, p + 1);
  }

  /** 0x01 to 0x07: nodes open with name, type mark and, in the first two, an id not kept; 0x05 closes one. */
  lemma NodeOps(s: seq<byte>, p: nat, op: byte, st: DState, name: Text, q: nat)
    requires p <= q <= |s| && 0x01 <= op <= 0x07
    requires if op == 0x01 || op == 0x03 then StrAt(s, p) == Ok(name, q) else name == [] && q == p
    ensures op <= 0x04 && TypeMarkAt(s, q, st.cache).Ok? ==>
              var mark := TypeMarkAt(s, q, st.cache);
              var end := if op <= 0x02 then mark.pos + 4 else mark.pos;
              end <= |s| ==>
                OperandAt(s, p, op, st)
                == Ok(DState(st.toks + [Tok(NodeStart, name, NoVal, mark.value.0, 0, [], st.depth)], st.depth + 1, mark.value.1), end)
    ensures op == 0x05 ==>
              OperandAt(s, p, op, st)
              == Ok(DState(st.toks + [Tok(NodeEnd, [], NoVal, [], 0, [], st.depth - 1)], st.depth - 1, st.cache), p)
    ensures op == 0x06 && p + 8 <= |s| ==>
              OperandAt(s, p, op, st)
              == Ok(DState(st.toks + [Tok(ArrayStart, [], IntVal(Signed64(U64(s, p))), [], 0, [], st.depth)], st.depth + 1, st.cache), p + 8)
    ensures op == 0x07 ==>
              OperandAt(s, p, op, st)
              == Ok(DState(st.toks + [Tok(ArrayEnd, [], NoVal, [], 0, [], st.depth - 1)], st.depth - 1, st.cache), p)
  {
    hide IntAt, StrAt, TypeMarkAt, U64, Signed64;
    SignedBytes(s, p);
    if TypeMarkAt(s, q, st.cache).Ok? {
      SignedBytes(s, TypeMarkAt(s, q, st.cache).pos);
    }
  }

  /** 0x08: how many elements and how wide, four bytes each, then the elements' bytes if they are all there. */
  lemma ArrayBytes(s: seq<byte>, p: nat, st: DState, n: int, w: int, len: int)
    requires p + 8 <= |s| && n == Signed32(U32(s, p)) && w == Signed32(U32(s, p + 4)) && len == n * w
    ensures n < 0 || w < 0 ==> OperandAt(s, p, 0x08, st) == Bad(BadLength)
    ensures n >= 0 && w >= 0 ==> len >= 0
    ensures n >= 0 && w >= 0 && p + 8 + len > |s| ==> OperandAt(s, p, 0x08, st) == Bad(BadLength)
    ensures n >= 0 && w >= 0 && p + 8 + len <= |s| ==>
              OperandAt(s, p, 0x08, st)
              == Ok(DState(st.toks + [Tok(PrimArray, [], IntVal(n), [], w, s[p + 8..p + 8 + len], st.depth)], st.depth, st.cache),
                    p + 8 + len)
  {
    hide IntAt, U32, Signed32;
    SignedBytes(s, p);
    SignedBytes(s, p + 4);
  }
}
