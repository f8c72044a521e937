/**
 What each kind of item in a blob is built into, from its bytes to its value, in plain numbers; and
 what the fields of a node come to.
 */
module OdinValues {
  import opened Common
  import opened Bytes
  import opened Cursors
  import opened Texts
  import opened Odin
  import opened OdinWire
  import opened OdinTree

  /** An opcode and the name c behind it: flag 0, the length in four bytes, one byte for each character. */
  function Field(op: byte, c: seq<byte>): seq<byte>
    requires |c| < 256
  {
    [op, 0, |c|, 0, 0, 0] + c
  }

  const START := DState([], 0, map[])

  lemma FieldName(op: byte, c: seq<byte>, e: seq<byte>)
    requires |c| < 256
    ensures var s := Field(op, c) + e;
            && |s| == 6 + |c| + |e| && s[0] == op && StrAt(s, 1) == Ok(c, 6 + |c|) && s[6 + |c|..] == e
  {
    hide StrAt;
    var s := Field(op, c) + e;
    StringBytes(s, 1);
    assert s[6..6 + |c|] == c;
  }

  lemma OneToken(s: seq<byte>, t: Tok)
    requires s != [] && OperandAt(s, 1, s[0], START) == Ok(DState([t], 0, map[]), |s|)
    ensures Decode(s) == Success([t])
  {
    hide OperandAt;
    assert RunFrom(s, |s|, DState([t], 0, map[])) == Ok(DState([t], 0, map[]), |s|);
  }

  /** A single item is a field, or stands under "$items" if it has no name. */
  lemma OneItem(t: Tok)
    requires !Opens(t.kind) && !Closes(t.kind) && !Skipped(t.kind)
    ensures Build([t]) == JMap(map[if t.name != [] then t.name else [36, 105, 116, 101, 109, 115] := LeafJson(t, [])])
  {
    hide LeafJson;
    LeafStep([t], 0, []);
    var v := LeafJson(t, []);
    var m: map<Text, Json> := if t.name != [] then map[t.name := v] else map[];
    assert [] + [v] == [v];
    assert Put(map[], t.name, v) == m;
    FillStep([t], 0, [], map[], []);
    FillStops([t], 1, [], m, PutUnnamed([], t.name, v));
  }

  lemma ItemValue(s: seq<byte>, t: Tok, v: Json)
    requires s != [] && OperandAt(s, 1, s[0], START) == Ok(DState([t], 0, map[]), |s|)
    requires !Opens(t.kind) && !Closes(t.kind) && !Skipped(t.kind) && LeafJson(t, []) == v
    ensures ValueOf(s) == Success(JMap(map[if t.name != [] then t.name else [36, 105, 116, 101, 109, 115] := v]))
  {
    hide OperandAt, Decode, Build, LeafJson;
    OneToken(s, t);
    OneItem(t);
  }

  /** {c: v} */
  function Holding(c: seq<byte>, v: Json): Result<Json> { Success(JMap(map[c := v])) }

  /** An integer field is its number. */
  lemma IntegerFields(c: seq<byte>, e: seq<byte>)
    requires 0 < |c| < 256
    ensures |e| == 1 ==> ValueOf(Field(0x0F, c) + e) == Holding(c, JInt(if e[0] < 128 then e[0] as int else e[0] as int - 256))
    ensures |e| == 1 ==> ValueOf(Field(0x11, c) + e) == Holding(c, JInt(e[0] as int))
    ensures |e| == 2 ==> ValueOf(Field(0x13, c) + e) == Holding(c, JInt(Signed16(U16(e, 0))))
    ensures |e| == 2 ==> ValueOf(Field(0x15, c) + e) == Holding(c, JInt(U16(e, 0)))
    ensures |e| == 4 ==> ValueOf(Field(0x17, c) + e) == Holding(c, JInt(Signed32(U32(e, 0))))
    ensures |e| == 4 ==> ValueOf(Field(0x19, c) + e) == Holding(c, JInt(U32(e, 0)))
    ensures |e| == 8 ==> ValueOf(Field(0x1B, c) + e) == Holding(c, JInt(Signed64(U64(e, 0))))
    ensures |e| == 8 ==> ValueOf(Field(0x1D, c) + e) == Holding(c, JInt(U64(e, 0)))
  {
    hide ValueOf, OperandAt, StrAt, Field, Signed16, Signed32, Signed64, U16, U32, U64;
    if |e| == 1 {
      IntegerField(0x0F, c, e, Signed8(e[0]), SByteTok);
      IntegerField(0x11, c, e, e[0] as int, ByteTok);
    } else if |e| == 2 {
      IntegerField(0x13, c, e, Signed16(U16(e, 0)), ShortTok);
      IntegerField(0x15, c, e, U16(e, 0), UShortTok);
    } else if |e| == 4 {
      IntegerField(0x17, c, e, Signed32(U32(e, 0)), IntTok);
      IntegerField(0x19, c, e, U32(e, 0), UIntTok);
    } else if |e| == 8 {
      IntegerField(0x1B, c, e, Signed64(U64(e, 0)), LongTok);
      IntegerField(0x1D, c, e, U64(e, 0), ULongTok);
    }
  }

  lemma IntegerField(op: byte, c: seq<byte>, e: seq<byte>, n: int, kind: Kind)
    requires 0 < |c| < 256 && 0x0F <= op <= 0x1E && op % 2 == 1
    requires op == 0x0F ==> |e| == 1 && n == Signed8(e[0]) && kind == SByteTok
    requires op == 0x11 ==> |e| == 1 && n == e[0] as int && kind == ByteTok
    requires op == 0x13 ==> |e| == 2 && n == Signed16(U16(e, 0)) && kind == ShortTok
    requires op == 0x15 ==> |e| == 2 && n == U16(e, 0) && kind == UShortTok
    requires op == 0x17 ==> |e| == 4 && n == Signed32(U32(e, 0)) && kind == IntTok
    requires op == 0x19 ==> |e| == 4 && n == U32(e, 0) && kind == UIntTok
    requires op == 0x1B ==> |e| == 8 && n == Signed64(U64(e, 0)) && kind == LongTok
    requires op == 0x1D ==> |e| == 8 && n == U64(e, 0) && kind == ULongTok
    ensures ValueOf(Field(op, c) + e) == Holding(c, JInt(n))
  {
    hide ValueOf, OperandAt, StrAt, Field, Signed8, Signed16, Signed32, Signed64;
    var s, q := Field(op, c) + e, 6 + |c|;
    FieldName(op, c, e);
    SameFields(s, q, e);
    IntegerOps(s, 1, op, START, c, q);
    var t := Tok(kind, c, IntVal(n), [], 0, [], 0);
    assert [] + [t] == [t];
    ItemValue(s, t, JInt(n));
  }

  lemma SameFields(s: seq<byte>, q: nat, e: seq<byte>)
    requires q <= |s| && s[q..] == e
    ensures |e| == |s| - q
    ensures |e| == 1 ==> s[q] == e[0]
    ensures |e| == 2 ==> U16(s, q) == U16(e, 0)
    ensures |e| == 4 ==> U32(s, q) == U32(e, 0)
    ensures |e| == 8 ==> U64(s, q) == U64(e, 0)
  {
    if |e| >= 1 { assert s[q] == e[0]; }
    if |e| >= 2 { assert s[q + 1] == e[1]; }
    if |e| >= 4 { assert s[q + 2] == e[2] && s[q + 3] == e[3]; }
    if |e| >= 8 { assert s[q + 4] == e[4] && s[q + 5] == e[5] && s[q + 6] == e[6] && s[q + 7] == e[7]; }
  }

  lemma OtherField(op: byte, c: seq<byte>, e: seq<byte>, kind: Kind, val: Val, v: Json)
    requires 0 < |c| < 256 && !Opens(kind) && !Closes(kind) && !Skipped(kind)
    requires OperandAt(Field(op, c) + e, 1, op, START) == Ok(With(START, kind, c, val), 6 + |c| + |e|)
    requires LeafJson(Tok(kind, c, val, [], 0, [], 0), []) == v
    ensures ValueOf(Field(op, c) + e) == Holding(c, v)
  {
    hide ValueOf, OperandAt, StrAt, Field, LeafJson;
    FieldName(op, c, e);
    var t := Tok(kind, c, val, [], 0, [], 0);
    assert [] + [t] == [t];
    ItemValue(Field(op, c) + e, t, v);
  }

  /** Floats keep their bits. */
  lemma FloatFields(c: seq<byte>, e: seq<byte>)
    requires 0 < |c| < 256
    ensures |e| == 4 ==> ValueOf(Field(0x1F, c) + e) == Holding(c, JF32(U32(e, 0)))
    ensures |e| == 8 ==> ValueOf(Field(0x21, c) + e) == Holding(c, JF64(U64(e, 0)))
  {
    hide ValueOf, OperandAt, StrAt, Field, U32, U64;
    var op, q := if |e| == 4 then 0x1F else 0x21, 6 + |c|;
    if |e| == 4 || |e| == 8 {
      FieldName(op, c, e);
      SameFields(Field(op, c) + e, q, e);
      OtherScalarOps(Field(op, c) + e, 1, op, START, c, q);
      if |e| == 4 {
        OtherField(op, c, e, FloatTok, F32(U32(e, 0)), JF32(U32(e, 0)));
      } else {
        OtherField(op, c, e, DoubleTok, F64(U64(e, 0)), JF64(U64(e, 0)));
      }
    }
  }

  /** Decimals and GUIDs become "?". */
  lemma PlaceholderFields(c: seq<byte>, e: seq<byte>, guid: bool)
    requires 0 < |c| < 256 && |e| == 16
    ensures ValueOf(Field(if guid then 0x29 else 0x23, c) + e) == Holding(c, JText([63]))
  {
    hide ValueOf, OperandAt, StrAt, Field;
    var op, q := if guid then 0x29 else 0x23, 6 + |c|;
    FieldName(op, c, e);
    OtherScalarOps(Field(op, c) + e, 1, op, START, c, q);
    OtherField(op, c, e, if guid then GuidTok else DecimalTok, TextVal([63]), JText([63]));
  }

  /** A truth value is false for the byte 0 only. */
  lemma TruthField(c: seq<byte>, b: byte)
    requires 0 < |c| < 256
    ensures ValueOf(Field(0x2B, c) + [b]) == Holding(c, JBool(b != 0))
  {
    hide ValueOf, OperandAt, StrAt, Field;
    FieldName(0x2B, c, [b]);
    SameFields(Field(0x2B, c) + [b], 6 + |c|, [b]);
    OtherScalarOps(Field(0x2B, c) + [b], 1, 0x2B, START, c, 6 + |c|);
    OtherField(0x2B, c, [b], BoolTok, BoolVal(b != 0), JBool(b != 0));
  }

  /** The bytes of a string of one byte for each character. */
  function Chars(t: seq<byte>): seq<byte>
    requires |t| < 256
  {
    [0, |t|, 0, 0, 0] + t
  }

  lemma CharsRead(s: seq<byte>, q: nat, t: seq<byte>)
    requires |t| < 256 && q <= |s| && s[q..] == Chars(t)
    ensures StrAt(s, q) == Ok(t, |s|)
  {
    hide StrAt;
    var e := Chars(t);
    assert forall k :: 0 <= k < |e| ==> s[q + k] == e[k];
    assert e[0] == 0 && e[1] == |t| && e[2] == 0 && e[3] == 0 && e[4] == 0;
    StringBytes(s, q);
    assert s[q + 5..q + 5 + |t|] == e[5..] == t;
  }

  /** A string is its text. */
  lemma StringField(c: seq<byte>, t: seq<byte>)
    requires 0 < |c| < 256 && |t| < 256
    ensures ValueOf(Field(0x27, c) + Chars(t)) == Holding(c, JText(t))
  {
    hide ValueOf, OperandAt, StrAt, Field, Chars;
    FieldName(0x27, c, Chars(t));
    CharsRead(Field(0x27, c) + Chars(t), 6 + |c|, t);
    OtherScalarOps(Field(0x27, c) + Chars(t), 1, 0x27, START, c, 6 + |c|);
    OtherField(0x27, c, Chars(t), StringTok, TextVal(t), JText(t));
  }

  /** A character is the text of its unit. */
  lemma CharField(c: seq<byte>, e: seq<byte>)
    requires 0 < |c| < 256 && |e| == 2 && !(0xD800 <= U16(e, 0) < 0xE000)
    ensures ValueOf(Field(0x25, c) + e) == Holding(c, JText([U16(e, 0)]))
  {
    hide ValueOf, OperandAt, StrAt, Field, U16;
    FieldName(0x25, c, e);
    SameFields(Field(0x25, c) + e, 6 + |c|, e);
    OtherScalarOps(Field(0x25, c) + e, 1, 0x25, START, c, 6 + |c|);
    UnitBound(e);
    UnitsMean(U16(e, 0), 0, []);
    assert [U16(e, 0)] + [] == [U16(e, 0)];
    OtherField(0x25, c, e, CharTok, TextVal([U16(e, 0)]), JText([U16(e, 0)]));
  }

  lemma UnitBound(e: seq<byte>)
    requires |e| == 2
    ensures U16(e, 0) < 65536
  {
  }

  /** A null is nothing. */
  lemma NullField(c: seq<byte>)
    requires 0 < |c| < 256
    ensures ValueOf(Field(0x2D, c)) == Holding(c, JNull)
  {
    hide ValueOf, OperandAt, StrAt, Field;
    FieldName(0x2D, c, []);
    assert Field(0x2D, c) + [] == Field(0x2D, c);
    PlainOps(Field(0x2D, c), 1, 0x2D, START);
    OtherField(0x2D, c, [], NullTok, NoVal, JNull);
  }

  /** {c: {"$ref": t}} */
  function Referring(c: seq<byte>, t: Text): Result<Json> { Holding(c, JMap(map[[36, 114, 101, 102] := JText(t)])) }

  /** A reference by id: inside the blob "#" stands before the id. */
  lemma IdFields(c: seq<byte>, e: seq<byte>, inside: bool)
    requires 0 < |c| < 256 && |e| == 4
    ensures var id := Itoa(Signed32(U32(e, 0)));
            ValueOf(Field(if inside then 0x09 else 0x0B, c) + e) == Referring(c, if inside then [35] + id else id)
  {
    hide ValueOf, OperandAt, StrAt, Field, U32, Signed32, Itoa;
    var id := Signed32(U32(e, 0));
    var op := if inside then 0x09 else 0x0B;
    FieldName(op, c, e);
    SameFields(Field(op, c) + e, 6 + |c|, e);
    ReferenceOps(Field(op, c) + e, 1, op, START, c, 6 + |c|);
    var t := if inside then [35] + Itoa(id) else Itoa(id);
    OtherField(op, c, e, if inside then InternalRef else ExtRef, IntVal(id), JMap(map[[36, 114, 101, 102] := JText(t)]));
  }

  /** A reference by GUID is its bytes in hex. */
  lemma GuidField(c: seq<byte>, e: seq<byte>)
    requires 0 < |c| < 256 && |e| == 16
    ensures ValueOf(Field(0x0D, c) + e) == Referring(c, HexText(e))
  {
    hide ValueOf, OperandAt, StrAt, Field, HexText;
    FieldName(0x0D, c, e);
    GuidRead(Field(0x0D, c) + e, c, 6 + |c|, e);
    OtherField(0x0D, c, e, ExtRef, TextVal(HexText(e)), JMap(map[[36, 114, 101, 102] := JText(HexText(e))]));
  }

  lemma GuidRead(s: seq<byte>, c: seq<byte>, q: nat, e: seq<byte>)
    requires 1 <= q <= |s| && s[q..] == e && |e| == 16 && StrAt(s, 1) == Ok(c, q)
    ensures OperandAt(s, 1, 0x0D, START) == Ok(With(START, ExtRef, c, TextVal(HexText(e))), |s|)
  {
    hide OperandAt, StrAt, HexText, With;
    ReferenceOps(s, 1, 0x0D, START, c, q);
    WholeTail(s, q, e);
  }

  lemma WholeTail(s: seq<byte>, q: nat, e: seq<byte>)
    requires q <= |s| && s[q..] == e
    ensures q + |e| == |s| && s[q..q + |e|] == e
  {
  }

  /** A reference by text is that text. */
  lemma TextRefField(c: seq<byte>, t: seq<byte>)
    requires 0 < |c| < 256 && |t| < 256
    ensures ValueOf(Field(0x32, c) + Chars(t)) == Referring(c, t)
  {
    hide ValueOf, OperandAt, StrAt, Field, Chars;
    FieldName(0x32, c, Chars(t));
    CharsRead(Field(0x32, c) + Chars(t), 6 + |c|, t);
    ReferenceOps(Field(0x32, c) + Chars(t), 1, 0x32, START, c, 6 + |c|);
    OtherField(0x32, c, Chars(t), ExtRef, TextVal(t), JMap(map[[36, 114, 101, 102] := JText(t)]));
  }

  // ---------------------------------------------------------------- primitive arrays

  predicate StandsAt(t: Text, needle: Text, i: int) { 0 <= i <= |t| - |needle| && t[i..i + |needle|] == needle }

  /** A text contains another one exactly if that stands somewhere in it. */
  lemma {:induction false} ContainsIff(t: Text, needle: Text)
    ensures Contains(t, needle) <==> exists i :: StandsAt(t, needle, i)
    decreases |t|
  {
    if |needle| <= |t| && t[..|needle|] == needle {
      assert StandsAt(t, needle, 0);
    } else if |needle| <= |t| && |t| > 0 {
      ContainsIff(t[1..], needle);
      forall i
        ensures StandsAt(t[1..], needle, i) <==> i >= 0 && StandsAt(t, needle, i + 1)
      {
        if 0 <= i < |t| - |needle| {
          assert t[1..][i..i + |needle|] == t[i + 1..i + 1 + |needle|];
        }
      }
      if i :| StandsAt(t, needle, i) {
        assert StandsAt(t[1..], needle, i - 1);
      }
    }
  }

  /** Does the type's name contain "Single", or "Double"? */
  function IsSingle(ptype: Text): bool { Contains(ptype, [83, 105, 110, 103, 108, 101]) }
  function IsDouble(ptype: Text): bool { Contains(ptype, [68, 111, 117, 98, 108, 101]) }

  /** An element is a float if its width and the enclosing type say so, and otherwise a signed integer. */
  lemma ElementValue(e: seq<byte>, ptype: Text)
    requires |e| >= 1
    ensures |e| == 2 ==> ElemJson(e, ptype) == JInt(Signed16(U16(e, 0)))
    ensures |e| == 4 ==> ElemJson(e, ptype) == if IsSingle(ptype) then JF32(U32(e, 0)) else JInt(Signed32(U32(e, 0)))
    ensures |e| == 8 ==> ElemJson(e, ptype) == if IsDouble(ptype) then JF64(U64(e, 0)) else JInt(Signed64(U64(e, 0)))
    ensures |e| !in {2, 4, 8} ==> ElemJson(e, ptype) == JInt(e[0] as int)
  {
    hide Contains, FromLE, Signed;
    LowByteFirst(e);
    if |e| == 2 {
      TopBitIsSign(U16(e, 0));
    } else if |e| == 4 {
      TopBitIsSign(U32(e, 0));
    } else if |e| == 8 {
      LowByteFirst(e[..4]);
      LowByteFirst(e[4..]);
      TopBitIsSign(U64(e, 0));
    }
  }

  /** There is an element for every full width, and each stands at its place. */
  lemma {:induction false} ElementsInPlace(raw: seq<byte>, w: nat, ptype: Text, n: nat)
    requires w >= 1 && |raw| == n * w
    ensures |ElemsJson(raw, w, ptype)| == n
    ensures forall k :: 0 <= k < n ==> k * w + w <= |raw| && ElemsJson(raw, w, ptype)[k] == ElemJson(raw[k * w..k * w + w], ptype)
    decreases n
  {
    hide ElemJson;
    if n > 0 {
      Shorter(n, w);
      ElementsInPlace(raw[w..], w, ptype, n - 1);
      forall k | 0 <= k < n
        ensures k * w + w <= |raw| && ElemsJson(raw, w, ptype)[k] == ElemJson(raw[k * w..k * w + w], ptype)
      {
        if k > 0 {
          Shorter(k, w);
          assert raw[w..][(k - 1) * w..(k - 1) * w + w] == raw[k * w..k * w + w];
        } else {
          NoSpan(w);
        }
      }
    } else {
      NoSpan(w);
    }
  }

  lemma NoSpan(w: nat)
    ensures 0 * w == 0
  {
  }

  lemma Shorter(n: nat, w: nat)
    requires n >= 1
    ensures n * w == (n - 1) * w + w && n * w >= w
  {
  }

  /** The bytes of an array of n elements of width w. */
  function ArrayOf(n: nat, w: nat, raw: seq<byte>): seq<byte>
    requires n < 128 && w < 128
  {
    [8, n, 0, 0, 0, w, 0, 0, 0] + raw
  }

  /** An array of bytes is their hex text, a wider one the list of its elements; it has no name. */
  lemma ArrayValue(n: nat, w: nat, raw: seq<byte>)
    requires n < 128 && w < 128 && |raw| == n * w
    ensures ValueOf(ArrayOf(n, w, raw))
         == Success(JMap(map[[36, 105, 116, 101, 109, 115] := if w <= 1 then JText(HexText(raw)) else JList(ElemsJson(raw, w, []))]))
  {
    hide ValueOf, OperandAt, HexText, ElemsJson;
    var s := ArrayOf(n, w, raw);
    assert s[9..9 + |raw|] == raw;
    ArrayBytes(s, 1, START, n, w, n * w);
    HexIsHex(raw);
    var t := Tok(PrimArray, [], IntVal(n), [], w, raw, 0);
    assert [] + [t] == [t];
    ItemValue(s, t, if w <= 1 then JText(HexText(raw)) else JList(ElemsJson(raw, w, [])));
  }

  // ---------------------------------------------------------------- containers

  /** The values of the items without a name. */
  function Nameless(es: seq<(Text, Json)>): seq<Json>
  {
    if |es| == 0 then [] else (if es[0].0 == [] then [es[0].1] else []) + Nameless(es[1..])
  }

  lemma {:induction false} UnnamedAreNameless(es: seq<(Text, Json)>)
    ensures Unnamed(es) == Nameless(es)
    decreases |es|
  {
    if |es| > 0 {
      UnnamedAreNameless(es[1..]);
    }
  }

  /** The i-th item has the name k, and no later one. */
  predicate LastNamed(es: seq<(Text, Json)>, k: Text, i: nat)
  {
    i < |es| && es[i].0 == k && forall j :: i < j < |es| ==> es[j].0 != k
  }

  lemma {:induction false} NamedMeans(m: map<Text, Json>, es: seq<(Text, Json)>, k: Text, i: nat)
    ensures k != [] && LastNamed(es, k, i) ==> k in Named(m, es) && Named(m, es)[k] == es[i].1
    ensures k == [] || (forall j :: 0 <= j < |es| ==> es[j].0 != k) ==>
              (k in Named(m, es) <==> k in m) && (k in m ==> Named(m, es)[k] == m[k])
    decreases |es|
  {
    if |es| > 0 {
      var rest, m1 := es[1..], Put(m, es[0].0, es[0].1);
      assert forall j :: 0 <= j < |rest| ==> rest[j] == es[j + 1];
      if i > 0 {
        NamedMeans(m1, rest, k, i - 1);
      } else {
        NamedMeans(m1, rest, k, 0);
      }
    }
  }

  /**
   A node's field k: what the last item of that name holds. Under "$items" stand the items without a
   name, alone if it is one and as a list if they are more, and under "$type" the node's type, if it has one
   and no item takes the place.
   */
  lemma NodeField(open: Tok, es: seq<(Text, Json)>, k: Text, i: nat)
    requires open.kind == NodeStart
    ensures GroupJson(open, es).JMap?
    ensures var f, items := GroupJson(open, es).fields, Nameless(es);
            && (k == [36, 105, 116, 101, 109, 115] && |items| > 0 ==>
                  k in f && f[k] == if |items| == 1 then items[0] else JList(items))
            && (k != [36, 105, 116, 101, 109, 115] || |items| == 0 ==>
                  && (k != [] && LastNamed(es, k, i) ==> k in f && f[k] == es[i].1)
                  && (k == [] ==> k !in f)
                  && (k != [] && (forall j :: 0 <= j < |es| ==> es[j].0 != k) ==>
                        if k == [36, 116, 121, 112, 101] && open.typeStr != [] then k in f && f[k] == JText(open.typeStr)
                        else k !in f))
  {
    hide Named, Unnamed, Nameless;
    UnnamedAreNameless(es);
    NamedMeans(NodeFields(open.typeStr), es, k, i);
  }

  /** An array's elements are the values of its items, named or not. */
  lemma {:induction false} ArrayElements(es: seq<(Text, Json)>)
    ensures |Values(es)| == |es| && forall k :: 0 <= k < |es| ==> Values(es)[k] == es[k].1
    decreases |es|
  {
    if |es| > 0 {
      ArrayElements(es[1..]);
    }
  }
}
