/** Decoding inverts the Odin layout: every forest is read back as its tokens. */
module OdinTheorems {
  import opened Common
  import opened Bytes
  import opened Cursors
  import opened Texts
  import opened Odin

  lemma ByteAtIff(s: seq<byte>, p: nat, b: byte)
    ensures At(s, p, [b]) <==> p < |s| && s[p] == b
    ensures UintAt(s, p, 1) == Ok(b as nat, p + 1) <==> p < |s| && s[p] == b
  {
    if p < |s| {
      assert s[p..p + 1] == [s[p]];
      assert FromLE([s[p]]) == s[p] + 256 * FromLE([]) by { assert [s[p]][1..] == []; }
    }
  }

  lemma StrReads(s: seq<byte>, p: nat, o: OStr)
    requires StrOk(o) && At(s, p, EncStr(o))
    ensures StrAt(s, p) == Ok(DenStr(o), p + |EncStr(o)|)
  {
    hide At, UintAt, IntAt, ToLE, Pow256;
    var flag: byte := if o.Wide? then 1 else o.flag;
    var count := if o.Wide? then |o.units| else |o.chars|;
    var body := if o.Wide? then EncUnits(o.units) else o.chars;
    AtConcat(s, p, [flag], ToLE(count, 4) + body);
    ByteAtIff(s, p, flag);
    AtConcat(s, p + 1, ToLE(count, 4), body);
    SmallCount(count);
    IntAtIff(s, p + 1, 4, count);
    TakeAtIff(s, p + 5, body);
    if o.Wide? {
      UnitsDecodeEncoding(o.units);
    }
  }

  lemma SmallCount(count: nat)
    requires count <= MAX_STRING
    ensures FitsSigned(count, 4) && Unsigned(count, 4) == count
  {
  }

  lemma HeadReads(s: seq<byte>, p: nat, op: byte, name: Option<OStr>)
    requires op < 255 && NameOk(name) && At(s, p, EncHead(op, name))
    ensures p < |s| && s[p] == (if name.Some? then op else op + 1)
    ensures NameAt(s, p + 1, name.Some?) == Ok(DenName(name), p + |EncHead(op, name)|)
  {
    hide At, StrAt, UintAt;
    if name.Some? {
      AtConcat(s, p, [op], EncStr(name.value));
      ByteAtIff(s, p, op);
      StrReads(s, p + 1, name.value);
    } else {
      ByteAtIff(s, p, op + 1);
    }
  }

  lemma IntReads(s: seq<byte>, p: nat, n: int, w: nat)
    requires w > 0 && FitsSigned(n, w) && At(s, p, EncInt(n, w))
    ensures IntAt(s, p, w) == Ok(n, p + w) && p + w <= |s|
  {
    IntAtIff(s, p, w, n);
  }

  lemma PayloadReads(s: seq<byte>, p: nat, v: Scalar)
    requires ScalarOk(v) && At(s, p, EncPayload(v))
    ensures p <= |s| && ScalarAt(s, p, ScalarCode(v)) == Ok(DenScalar(v), p + |EncPayload(v)|)
  {
    hide IntAt, UintAt, StrAt, Pow256, Utf16Decode;
    match v
    case Whole(_, n) =>
      var k := ScalarCode(v);
      if WholeSigned(k) {
        IntReads(s, p, n, WholeWidth(k));
      } else {
        UintAtIff(s, p, WholeWidth(k), n);
      }
    case Single(bits) => UintAtIff(s, p, 4, bits);
    case Double(bits) => UintAtIff(s, p, 8, bits);
    case Decimal(raw) =>
    case Chr(unit) => UintAtIff(s, p, 2, unit);
    case Str(o) => StrReads(s, p, o);
    case Guid(raw) =>
    case Bool(b) => ByteAtIff(s, p, b);
  }

  // ---------------------------------------------------------------- one item at a time

  lemma ScalarDecodes(s: seq<byte>, p: nat, x: Item, tys: TypeTable, st: DState)
    requires x.Scal? && ItemOk(x, tys) && At(s, p, EncLeaf(x, tys))
    ensures p < |s| && OperandAt(s, p + 1, s[p], st) == Ok(Add(st, LeafTok(x, st.depth)), p + |EncLeaf(x, tys)|)
  {
    hide At, ScalarAt, EncPayload, NameAt, EncHead, ScalarKind, DenScalar, ScalarOk;
    var code := ScalarCode(x.v);
    var op: byte := 0x0F + 2 * code;
    AtConcat(s, p, EncHead(op, x.name), EncPayload(x.v));
    HeadReads(s, p, op, x.name);
    PayloadReads(s, p + |EncHead(op, x.name)|, x.v);
    assert s[p] % 2 == 1 <==> x.name.Some?;
    assert (s[p] - 0x0F) / 2 == code;
  }

  lemma PrimDecodes(s: seq<byte>, p: nat, x: Item, tys: TypeTable, st: DState)
    requires x.Prim? && ItemOk(x, tys) && At(s, p, EncLeaf(x, tys))
    ensures p < |s| && OperandAt(s, p + 1, s[p], st) == Ok(Add(st, LeafTok(x, st.depth)), p + |EncLeaf(x, tys)|)
  {
    hide At, IntAt, EncInt, FitsSigned;
    AtConcat(s, p, [0x08], EncInt(x.count, 4) + (EncInt(x.bytesPer, 4) + x.raw));
    ByteAtIff(s, p, 0x08);
    AtConcat(s, p + 1, EncInt(x.count, 4), EncInt(x.bytesPer, 4) + x.raw);
    AtConcat(s, p + 5, EncInt(x.bytesPer, 4), x.raw);
    IntWidth(x.count, 4);
    IntWidth(x.bytesPer, 4);
    IntReads(s, p + 1, x.count, 4);
    IntReads(s, p + 5, x.bytesPer, 4);
    TakeAtIff(s, p + 9, x.raw);
  }

  lemma IntWidth(n: int, w: nat)
    requires w > 0 && FitsSigned(n, w)
    ensures |EncInt(n, w)| == w
  {
  }

  lemma RefDecodes(s: seq<byte>, p: nat, x: Item, tys: TypeTable, st: DState)
    requires x.IntRef? || x.ExtIndex? || x.ExtGuid? || x.ExtText?
    requires ItemOk(x, tys) && At(s, p, EncLeaf(x, tys))
    ensures p < |s| && OperandAt(s, p + 1, s[p], st) == Ok(Add(st, LeafTok(x, st.depth)), p + |EncLeaf(x, tys)|)
  {
    hide At, IntAt, EncInt, NameAt, EncHead, StrAt, EncStr, Hex, FitsSigned;
    match x
    case IntRef(name, id) =>
      AtConcat(s, p, EncHead(0x09, name), EncInt(id, 4));
      HeadReads(s, p, 0x09, name);
      IntReads(s, p + |EncHead(0x09, name)|, id, 4);
      IntWidth(id, 4);
    case ExtIndex(name, id) =>
      AtConcat(s, p, EncHead(0x0B, name), EncInt(id, 4));
      HeadReads(s, p, 0x0B, name);
      IntReads(s, p + |EncHead(0x0B, name)|, id, 4);
      IntWidth(id, 4);
    case ExtGuid(name, guid) =>
      AtConcat(s, p, EncHead(0x0D, name), guid);
      HeadReads(s, p, 0x0D, name);
      TakeAtIff(s, p + |EncHead(0x0D, name)|, guid);
    case ExtText(name, o) =>
      AtConcat(s, p, EncHead(0x32, name), EncStr(o));
      HeadReads(s, p, 0x32, name);
      StrReads(s, p + |EncHead(0x32, name)|, o);
  }

  lemma LeafDecodes(s: seq<byte>, p: nat, x: Item, tys: TypeTable, st: DState)
    requires !x.Node? && !x.Arr? && ItemOk(x, tys) && At(s, p, EncLeaf(x, tys))
    ensures p < |s| && OperandAt(s, p + 1, s[p], st) == Ok(Add(st, LeafTok(x, st.depth)), p + |EncLeaf(x, tys)|)
  {
    hide At, NameAt, EncHead, EncPayload, EncStr, EncInt;
    match x
    case Prim(_, _, _) => PrimDecodes(s, p, x, tys, st);
    case Scal(_, _) => ScalarDecodes(s, p, x, tys, st);
    case Nothing(name) =>
      HeadReads(s, p, 0x2D, name);
      NoName(s, p + 1);
    case Terminator => ByteAtIff(s, p, 0x31);
    case _ => RefDecodes(s, p, x, tys, st);
  }

  lemma NoName(s: seq<byte>, p: nat)
    requires p <= |s|
    ensures NameAt(s, p, false) == Ok([], p)
  {
  }

  // ---------------------------------------------------------------- types and nodes

  /** The decoder's cache holds exactly the types named so far. */
  function CacheOf(tys: TypeTable, seen: set<int>): map<int, Text>
  {
    map id | id in seen && id in tys :: DenStr(tys[id])
  }

  lemma MarkReads(s: seq<byte>, p: nat, ty: Option<int>, tys: TypeTable, seen: set<int>)
    requires ty.Some? ==> ty.value in tys && FitsSigned(ty.value, 4) && StrOk(tys[ty.value])
    requires At(s, p, EncTypeMark(ty, tys, seen))
    ensures p <= |s|
    ensures TypeMarkAt(s, p, CacheOf(tys, seen))
         == Ok((DenTypeName(ty, tys), CacheOf(tys, SeenAfterMark(ty, seen))), p + |EncTypeMark(ty, tys, seen)|)
  {
    hide At, IntAt, EncInt, StrAt, EncStr, DenStr;
    var cache := CacheOf(tys, seen);
    if ty.None? {
      ByteAtIff(s, p, 0x2E);
    } else {
      var id := ty.value;
      IntWidth(id, 4);
      if id in seen {
        AtConcat(s, p, [0x30], EncInt(id, 4));
        ByteAtIff(s, p, 0x30);
        IntReads(s, p + 1, id, 4);
        assert seen + {id} == seen;
      } else {
        AtConcat(s, p, [0x2F], EncInt(id, 4) + EncStr(tys[id]));
        ByteAtIff(s, p, 0x2F);
        AtConcat(s, p + 1, EncInt(id, 4), EncStr(tys[id]));
        IntReads(s, p + 1, id, 4);
        StrReads(s, p + 5, tys[id]);
        assert cache[id := DenStr(tys[id])] == CacheOf(tys, seen + {id});
      }
    }
  }

  lemma NodeHeadDecodes(s: seq<byte>, p: nat, x: Item, tys: TypeTable, seen: set<int>, st: DState)
    requires x.Node? && ItemOk(x, tys) && st.cache == CacheOf(tys, seen)
    requires At(s, p, EncNodeHead(x.name, x.ref, x.ty, tys, seen))
    ensures p < |s|
    ensures OperandAt(s, p + 1, s[p], st)
         == Ok(OpenNode(st, DenName(x.name), (DenTypeName(x.ty, tys), CacheOf(tys, SeenAfterMark(x.ty, seen)))),
               p + |EncNodeHead(x.name, x.ref, x.ty, tys, seen)|)
  {
    hide At, IntAt, EncInt, NameAt, EncHead, TypeMarkAt, EncTypeMark, CacheOf, SeenAfterMark, ItemsOk;
    var op: byte := if x.ref.Some? then 1 else 3;
    var head := EncHead(op, x.name);
    var mark := EncTypeMark(x.ty, tys, seen);
    var id := if x.ref.Some? then EncInt(x.ref.value, 4) else [];
    AtConcat(s, p, head, mark + id);
    HeadReads(s, p, op, x.name);
    AtConcat(s, p + |head|, mark, id);
    MarkReads(s, p + |head|, x.ty, tys, seen);
    if x.ref.Some? {
      IntWidth(x.ref.value, 4);
      IntReads(s, p + |head| + |mark|, x.ref.value, 4);
    }
  }

  lemma ArrayHeadDecodes(s: seq<byte>, p: nat, length: int, st: DState)
    requires FitsSigned(length, 8) && At(s, p, EncArrayHead(length))
    ensures p < |s|
    ensures OperandAt(s, p + 1, s[p], st)
         == Ok(DState(st.toks + [Simple(ArrayStart, [], IntVal(length), st.depth)], st.depth + 1, st.cache),
               p + |EncArrayHead(length)|)
  {
    hide At, IntAt, EncInt;
    IntWidth(length, 8);
    AtConcat(s, p, [0x06], EncInt(length, 8));
    ByteAtIff(s, p, 0x06);
    IntReads(s, p + 1, length, 8);
  }

  // ---------------------------------------------------------------- forests

  /** The decoder's state after a list of items: their tokens added, the depth as before. */
  function After(st: DState, xs: seq<Item>, tys: TypeTable, seen: set<int>): DState
    requires ItemsOk(xs, tys)
  {
    DState(st.toks + Flatten(TreesOf(xs, tys, st.depth)), st.depth, CacheOf(tys, SeenAfter(xs, seen)))
  }

  /** Running over the layout of a list of items adds exactly their tokens, whatever follows. */
  lemma {:induction false} ItemsDecode(s: seq<byte>, p: nat, xs: seq<Item>, tys: TypeTable, seen: set<int>, st: DState)
    requires ItemsOk(xs, tys) && st.cache == CacheOf(tys, seen)
    requires At(s, p, EncItems(xs, tys, seen))
    ensures RunFrom(s, p, st) == RunFrom(s, p + |EncItems(xs, tys, seen)|, After(st, xs, tys, seen))
    decreases xs, 1
  {
    hide At, OperandAt, EncLeaf, EncNodeHead, EncArrayHead, CacheOf, LeafTok, NodeHeadOk, RunFrom, FitsSigned;
    if |xs| == 0 {
      assert After(st, xs, tys, seen) == st;
    } else {
      assert ItemOk(xs[0], tys) && ItemsOk(xs[1..], tys);
      match xs[0]
      case Node(name, ref, ty, kids) =>
        var head := EncNodeHead(name, ref, ty, tys, seen);
        var seen1 := SeenAfterMark(ty, seen);
        AtConcat(s, p, head, EncItems(kids, tys, seen1) + ([0x05] + EncItems(xs[1..], tys, SeenAfter(kids, seen1))));
        NodeHeadDecodes(s, p, xs[0], tys, seen, st);
        var open := NodeStartTok(DenName(name), DenTypeName(ty, tys), st.depth);
        GroupDecodes(s, p, xs, tys, seen1, head, 0x05, open, st);
      case Arr(length, kids) =>
        var head := EncArrayHead(length);
        AtConcat(s, p, head, EncItems(kids, tys, seen) + ([0x07] + EncItems(xs[1..], tys, SeenAfter(kids, seen))));
        ArrayHeadDecodes(s, p, length, st);
        GroupDecodes(s, p, xs, tys, seen, head, 0x07, Simple(ArrayStart, [], IntVal(length), st.depth), st);
      case _ =>
        LeafStep(s, p, xs, tys, seen, st);
    }
  }

  lemma {:induction false} LeafStep(s: seq<byte>, p: nat, xs: seq<Item>, tys: TypeTable, seen: set<int>, st: DState)
    requires |xs| > 0 && !xs[0].Node? && !xs[0].Arr? && ItemsOk(xs, tys) && st.cache == CacheOf(tys, seen)
    requires ItemOk(xs[0], tys) && ItemsOk(xs[1..], tys)
    requires At(s, p, EncItems(xs, tys, seen))
    ensures RunFrom(s, p, st) == RunFrom(s, p + |EncItems(xs, tys, seen)|, After(st, xs, tys, seen))
    decreases xs, 0
  {
    hide At, OperandAt, EncLeaf, CacheOf, LeafTok, ItemOk, ItemsOk, RunFrom;
    var rest, leaf := xs[1..], EncLeaf(xs[0], tys);
    AtConcat(s, p, leaf, EncItems(rest, tys, seen));
    LeafDecodes(s, p, xs[0], tys, st);
    RunStep(s, p, st);
    var st1 := Add(st, LeafTok(xs[0], st.depth));
    ItemsDecode(s, p + |leaf|, rest, tys, seen, st1);
    LeafTokens(st.toks, LeafTok(xs[0], st.depth), TreesOf(rest, tys, st.depth));
  }

  /** A group: its head has been read as `open`, then come its items, its end marker and what follows it. */
  lemma {:induction false} GroupDecodes(s: seq<byte>, p: nat, xs: seq<Item>, tys: TypeTable, seen1: set<int>,
                                        head: seq<byte>, op: byte, open: Tok, st: DState)
    requires |xs| > 0 && (xs[0].Node? || xs[0].Arr?) && (op == 0x05 || op == 0x07)
    requires ItemsOk(xs[0].kids, tys) && ItemsOk(xs[1..], tys)
    requires At(s, p, GroupLayout(xs, tys, seen1, head, op)) && p < |s|
    requires OperandAt(s, p + 1, s[p], st)
          == Ok(DState(st.toks + [open], st.depth + 1, CacheOf(tys, seen1)), p + |head|)
    ensures RunFrom(s, p, st)
         == RunFrom(s, p + |GroupLayout(xs, tys, seen1, head, op)|, GroupAfter(xs, tys, seen1, op, open, st))
    decreases xs, 0
  {
    hide At, OperandAt, CacheOf, RunFrom, EncItems, TreesOf, SeenAfter, Flatten, ItemsOk;
    var kids, rest := xs[0].kids, xs[1..];
    var seen2 := SeenAfter(kids, seen1);
    var mid, tail := EncItems(kids, tys, seen1), EncItems(rest, tys, seen2);
    AtConcat(s, p, head, mid + ([op] + tail));
    var st1 := DState(st.toks + [open], st.depth + 1, CacheOf(tys, seen1));
    RunStep(s, p, st);
    var p1 := p + |head|;
    AtConcat(s, p1, mid, [op] + tail);
    ItemsDecode(s, p1, kids, tys, seen1, st1);
    var st2 := After(st1, kids, tys, seen1);
    var p2 := p1 + |mid|;
    AtConcat(s, p2, [op], tail);
    ByteAtIff(s, p2, op);
    CloseDecodes(s, p2, op, st2);
    RunStep(s, p2, st2);
    var st3 := CloseWith(st2, CloseKind(op));
    ItemsDecode(s, p2 + 1, rest, tys, seen2, st3);
    GroupTokens(st.toks, open, TreesOf(kids, tys, st.depth + 1), Simple(CloseKind(op), [], NoVal, st.depth),
                TreesOf(rest, tys, st.depth));
  }

  function CloseKind(op: byte): Kind { if op == 0x05 then NodeEnd else ArrayEnd }

  function GroupLayout(xs: seq<Item>, tys: TypeTable, seen1: set<int>, head: seq<byte>, op: byte): seq<byte>
    requires |xs| > 0 && (xs[0].Node? || xs[0].Arr?) && ItemsOk(xs[0].kids, tys) && ItemsOk(xs[1..], tys)
  {
    head + (EncItems(xs[0].kids, tys, seen1) + ([op] + EncItems(xs[1..], tys, SeenAfter(xs[0].kids, seen1))))
  }

  function GroupAfter(xs: seq<Item>, tys: TypeTable, seen1: set<int>, op: byte, open: Tok, st: DState): DState
    requires |xs| > 0 && (xs[0].Node? || xs[0].Arr?) && ItemsOk(xs[0].kids, tys) && ItemsOk(xs[1..], tys)
  {
    DState(st.toks + Flatten([Group(open, TreesOf(xs[0].kids, tys, st.depth + 1),
                                    Simple(CloseKind(op), [], NoVal, st.depth))] + TreesOf(xs[1..], tys, st.depth)),
           st.depth, CacheOf(tys, SeenAfter(xs[1..], SeenAfter(xs[0].kids, seen1))))
  }

  lemma RunStep(s: seq<byte>, p: nat, st: DState)
    requires p < |s| && OperandAt(s, p + 1, s[p], st).Ok?
    ensures RunFrom(s, p, st)
         == RunFrom(s, OperandAt(s, p + 1, s[p], st).pos, OperandAt(s, p + 1, s[p], st).value)
  {
  }

  lemma LeafTokens(toks: seq<Tok>, t: Tok, rest: seq<Tree>)
    ensures toks + [t] + Flatten(rest) == toks + Flatten([Leaf(t)] + rest)
  {
    assert ([Leaf(t)] + rest)[1..] == rest;
  }

  lemma CloseDecodes(s: seq<byte>, p: nat, op: byte, st: DState)
    requires p < |s| && s[p] == op && (op == 0x05 || op == 0x07)
    ensures OperandAt(s, p + 1, op, st) == Ok(CloseWith(st, CloseKind(op)), p + 1)
  {
  }

  lemma GroupTokens(toks: seq<Tok>, open: Tok, kids: seq<Tree>, close: Tok, rest: seq<Tree>)
    ensures toks + [open] + Flatten(kids) + [close] + Flatten(rest)
         == toks + Flatten([Group(open, kids, close)] + rest)
  {
    assert ([Group(open, kids, close)] + rest)[1..] == rest;
  }

  /** The whole blob: the tokens of the forest, every type name restored, every depth its nesting. */
  lemma DecodeInvertsLayout(xs: seq<Item>, tys: TypeTable)
    requires ItemsOk(xs, tys)
    ensures Decode(EncItems(xs, tys, {})) == Success(Flatten(TreesOf(xs, tys, 0)))
  {
    hide EncItems, TreesOf, Flatten, RunFrom, SeenAfter;
    var s := EncItems(xs, tys, {});
    var st := DState([], 0, map[]);
    assert CacheOf(tys, {}) == map[];
    ItemsDecode(s, 0, xs, tys, {}, st);
    var st1 := After(st, xs, tys, {});
    RunEnds(s, st1);
    assert st1.toks == Flatten(TreesOf(xs, tys, 0));
  }

  lemma RunEnds(s: seq<byte>, st: DState)
    ensures RunFrom(s, |s|, st) == Ok(st, |s|)
  {
  }
}
