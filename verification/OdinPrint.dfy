/**
 The text printer over the same tokens: it keeps its own type stack while walking the flat list.
 On well-nested lists it sees the same enclosing types, and decodes the same elements, as the builder.
 Lines are kept as records; how a float is spelt is not part of this model.
 */
module OdinPrint {
  import opened Common
  import opened Bytes
  import opened Cursors
  import opened Texts
  import opened Odin
  import opened OdinTree
  import OdinTheorems
  import OdinDecoder

  datatype PVal = PInt(n: int) | PF32(bits: nat) | PF64(bits: nat)
  datatype Label = FloatArray | DoubleArray | LongArray | IntArray | ByteArray(width: nat)

  datatype Line =
    | OpenLine(indent: nat, name: Text, typeStr: Text)
    | CloseLine(indent: nat)
    | ArrayLine(indent: nat, length: Val)
    | EndArrayLine(indent: nat)
    | PrimLine(indent: nat, vals: seq<PVal>, shown: Label, count: nat)
    | ScalarLine(indent: nat, name: Text, kind: Kind, value: Val)
    | NullLine(indent: nat, name: Text)

  const INT32: Text := [73, 110, 116, 51, 50]

  function Indent(depth: int): nat { if depth < 0 then 0 else 2 * depth }

  function ElemVal(e: seq<byte>, ptype: Text): PVal
    requires |e| >= 1
  {
    if Contains(ptype, SINGLE) && |e| == 4 then PF32(FromLE(e))
    else if Contains(ptype, DOUBLE) && |e| == 8 then PF64(FromLE(e))
    else if Contains(ptype, INT64) && |e| == 8 then PInt(Signed(FromLE(e), 8))
    else if |e| == 4 then PInt(Signed(FromLE(e), 4))
    else if |e| == 8 then PInt(Signed(FromLE(e), 8))
    else if |e| == 2 then PInt(Signed(FromLE(e), 2))
    else PInt(e[0])
  }

  function ElemVals(raw: seq<byte>, w: nat, ptype: Text): seq<PVal>
    requires w >= 1
    decreases |raw|
  {
    if |raw| < w then [] else [ElemVal(raw[..w], ptype)] + ElemVals(raw[w..], w, ptype)
  }

  function LabelOf(w: nat, ptype: Text): Label
  {
    if Contains(ptype, SINGLE) then FloatArray
    else if Contains(ptype, DOUBLE) then DoubleArray
    else if Contains(ptype, INT64) then LongArray
    else if Contains(ptype, INT32) then IntArray
    else ByteArray(w)
  }

  /** How many elements of width w fit: integer division. */
  function Quotient(n: nat, w: nat): nat
    requires w >= 1
  {
    n / w
  }

  function PrimLineOf(t: Tok, ptype: Text): Line
  {
    var w := if t.bytesPer < 1 then 1 else t.bytesPer;
    PrimLine(Indent(t.depth), ElemVals(t.rawArr, w, ptype), LabelOf(w, ptype), Quotient(|t.rawArr|, w))
  }

  predicate Printable(k: Kind)
  {
    k == SByteTok || k == ByteTok || k == ShortTok || k == UShortTok || k == IntTok || k == UIntTok || k == LongTok
    || k == ULongTok || k == FloatTok || k == DoubleTok || k == CharTok || k == StringTok || k == BoolTok
  }

  /** The lines of one token, given the type on top of the stack. */
  function LinesOf(t: Tok, ptype: Text): seq<Line>
  {
    var ind := Indent(t.depth);
    match t.kind
    case NodeStart => [OpenLine(ind, t.name, t.typeStr)]
    case PrimArray => [PrimLineOf(t, ptype)]
    case NodeEnd => [CloseLine(ind)]
    case ArrayStart => [ArrayLine(ind, t.value)]
    case ArrayEnd => [EndArrayLine(ind)]
    case NullTok => if t.name != [] then [NullLine(ind, t.name)] else []
    case _ => if Printable(t.kind) then [ScalarLine(ind, t.name, t.kind, t.value)] else []
  }

  function StackAfter(t: Tok, stack: seq<Text>): seq<Text>
  {
    if t.kind == NodeStart then stack + [t.typeStr]
    else if t.kind == NodeEnd && |stack| > 0 then stack[..|stack| - 1]
    else stack
  }

  function PrintFrom(toks: seq<Tok>, stack: seq<Text>): seq<Line>
  {
    if |toks| == 0 then []
    else LinesOf(toks[0], Top(stack)) + PrintFrom(toks[1..], StackAfter(toks[0], stack))
  }

  /** Printing a primitive array: its elements one by one, at the declared width. */
  method DecodePrimArray(t: Tok, ptype: Text) returns (line: Line)
    ensures line == PrimLineOf(t, ptype)
  {
    hide ElemVal, ElemVals, LabelOf, Quotient;
    var w := t.bytesPer;
    if w < 1 {
      w := 1;
    }
    var raw := t.rawArr;
    var count := Quotient(|raw|, w);
    assert raw[0..] == raw;
    var vals := [];
    var off := 0;
    for k := 0 to count
      invariant off == k * w && off <= |raw|
      invariant vals + ElemVals(raw[off..], w, ptype) == ElemVals(raw, w, ptype)
    {
      MoreRoom(|raw|, w, k);
      ElemStep(raw, off, w, ptype);
      vals := vals + [ElemVal(raw[off..off + w], ptype)];
      off := off + w;
    }
    NoRoom(|raw|, w);
    NoElems(raw[off..], w, ptype);
    line := PrimLine(Indent(t.depth), vals, LabelOf(w, ptype), count);
  }

  lemma ElemStep(raw: seq<byte>, off: nat, w: nat, ptype: Text)
    requires w >= 1 && off + w <= |raw|
    ensures ElemVals(raw[off..], w, ptype) == [ElemVal(raw[off..off + w], ptype)] + ElemVals(raw[off + w..], w, ptype)
  {
    var rest := raw[off..];
    assert rest[..w] == raw[off..off + w] && rest[w..] == raw[off + w..];
  }

  lemma MoreRoom(n: nat, w: nat, k: nat)
    requires w >= 1 && k < Quotient(n, w)
    ensures k * w + w <= n
  {
    assert (k + 1) * w <= (n / w) * w <= n by {
      MulMonotone(k + 1, n / w, w);
    }
    assert (k + 1) * w == k * w + w;
  }

  lemma MulMonotone(a: nat, b: nat, w: nat)
    requires a <= b
    ensures a * w <= b * w
  {
  }

  lemma NoRoom(n: nat, w: nat)
    requires w >= 1
    ensures n - Quotient(n, w) * w < w
  {
  }

  lemma NoElems(raw: seq<byte>, w: nat, ptype: Text)
    requires w >= 1 && |raw| < w
    ensures ElemVals(raw, w, ptype) == []
  {
  }

  method PrintTree(toks: seq<Tok>) returns (lines: seq<Line>)
    ensures lines == PrintFrom(toks, [])
  {
    hide LinesOf, PrimLineOf;
    lines := [];
    var typeStack: seq<Text> := [];
    for i := 0 to |toks|
      invariant lines + PrintFrom(toks[i..], typeStack) == PrintFrom(toks, [])
    {
      var t := toks[i];
      var out := PrintTok(t, Top(typeStack));
      PrintStep(lines, out, toks, i, typeStack);
      lines := lines + out;
      if t.kind == NodeStart {
        typeStack := typeStack + [t.typeStr];
      } else if t.kind == NodeEnd && |typeStack| > 0 {
        typeStack := typeStack[..|typeStack| - 1];
      }
    }
  }

  method PrintTok(t: Tok, ptype: Text) returns (out: seq<Line>)
    ensures out == LinesOf(t, ptype)
  {
    hide PrimLineOf;
    if t.kind == PrimArray {
      var line := DecodePrimArray(t, ptype);
      out := [line];
    } else {
      out := LinesOf(t, ptype);
    }
  }

  lemma PrintStep(lines: seq<Line>, out: seq<Line>, toks: seq<Tok>, i: nat, stack: seq<Text>)
    requires i < |toks| && out == LinesOf(toks[i], Top(stack))
    ensures lines + PrintFrom(toks[i..], stack)
         == lines + out + PrintFrom(toks[i + 1..], StackAfter(toks[i], stack))
  {
    assert toks[i..][1..] == toks[i + 1..];
  }

  /** What a token prints, two blanks for each level: no line for decimals, GUIDs, references, unknown bytes and the end. */
  lemma TokenPrints(t: Tok, stack: seq<Text>)
    ensures var ind, lines := if t.depth < 0 then 0 else 2 * t.depth, PrintFrom([t], stack);
            && (t.kind == NodeStart ==> lines == [OpenLine(ind, t.name, t.typeStr)])
            && (t.kind == NodeEnd ==> lines == [CloseLine(ind)])
            && (t.kind == ArrayStart ==> lines == [ArrayLine(ind, t.value)])
            && (t.kind == ArrayEnd ==> lines == [EndArrayLine(ind)])
            && (t.kind in {SByteTok, ByteTok, ShortTok, UShortTok, IntTok, UIntTok, LongTok, ULongTok, FloatTok, DoubleTok, CharTok, StringTok, BoolTok} ==>
                  lines == [ScalarLine(ind, t.name, t.kind, t.value)])
            && (t.kind == NullTok ==> lines == if t.name == [] then [] else [NullLine(ind, t.name)])
            && (t.kind in {DecimalTok, GuidTok, InternalRef, ExtRef, Raw, Eos} ==> lines == [])
            && (t.kind == PrimArray ==>
                  var w := if t.bytesPer < 1 then 1 else t.bytesPer;
                  |lines| == 1 && lines[0].PrimLine? && lines[0].indent == ind && lines[0].count == |t.rawArr| / w)
  {
    hide ElemVals, LabelOf;
    assert [t][1..] == [];
  }

  /** An array is labelled by the type around it: "Single", "Double", "Int64", "Int32", or else by its width. */
  lemma LabelShows(t: Tok, stack: seq<Text>)
    requires t.kind == PrimArray
    ensures var ptype := if |stack| == 0 then [] else stack[|stack| - 1];
            var line := PrintFrom([t], stack)[0];
            && line.PrimLine?
            && line.shown == if Contains(ptype, [83, 105, 110, 103, 108, 101]) then FloatArray
                             else if Contains(ptype, [68, 111, 117, 98, 108, 101]) then DoubleArray
                             else if Contains(ptype, [73, 110, 116, 54, 52]) then LongArray
                             else if Contains(ptype, [73, 110, 116, 51, 50]) then IntArray
                             else ByteArray(if t.bytesPer < 1 then 1 else t.bytesPer)
  {
    hide ElemVals, Contains;
    assert [t][1..] == [];
  }

  /** The elements of an array of bytes are printed as numbers from 0 to 255. */
  lemma {:induction false} BytesPrinted(raw: seq<byte>, ptype: Text)
    ensures |ElemVals(raw, 1, ptype)| == |raw|
    ensures forall k :: 0 <= k < |raw| ==> ElemVals(raw, 1, ptype)[k] == PInt(raw[k] as int)
    decreases |raw|
  {
    hide Contains;
    if |raw| > 0 {
      BytesPrinted(raw[1..], ptype);
      assert raw[..1][0] == raw[0];
    }
  }

  // ---------------------------------------------------------------- well-nested lists

  /** The lines of a well-nested list: each group is printed under the type in force inside it. */
  function NestedLines(ts: seq<Tree>, encl: Text): seq<Line>
    decreases ts
  {
    if |ts| == 0 then []
    else
      match ts[0]
      case Leaf(t) => LinesOf(t, encl) + NestedLines(ts[1..], encl)
      case Group(open, kids, close) =>
        LinesOf(open, encl)
        + (NestedLines(kids, Inside(open, encl)) + (LinesOf(close, Inside(open, encl)) + NestedLines(ts[1..], encl)))
  }

  lemma PrintConcat(t: Tok, rest: seq<Tok>, stack: seq<Text>)
    ensures PrintFrom([t] + rest, stack) == LinesOf(t, Top(stack)) + PrintFrom(rest, StackAfter(t, stack))
  {
    assert ([t] + rest)[1..] == rest;
  }

  /** Walking a well-nested stretch prints its lines and leaves the stack as it was. */
  lemma {:induction false} PrintReads(ts: seq<Tree>, stack: seq<Text>, rest: seq<Tok>)
    requires WellNested(ts)
    ensures PrintFrom(Flatten(ts) + rest, stack) == NestedLines(ts, Top(stack)) + PrintFrom(rest, stack)
    decreases ts, 0
  {
    hide LinesOf, PrintFrom, Flatten, NestedLines, WellNested, Inside;
    if |ts| == 0 {
      NothingUnfolds(Top(stack));
      assert [] + rest == rest && [] + PrintFrom(rest, stack) == PrintFrom(rest, stack);
    } else {
      RestIsNested(ts);
      var tail := Flatten(ts[1..]) + rest;
      PrintReads(ts[1..], stack, rest);
      match ts[0]
      case Leaf(t) =>
        LeafUnfolds(ts, t, Top(stack));
        Glue([t], Flatten(ts[1..]), rest);
        Glue(LinesOf(t, Top(stack)), NestedLines(ts[1..], Top(stack)), PrintFrom(rest, stack));
        PrintConcat(t, tail, stack);
      case Group(open, kids, close) =>
        GroupUnfolds(ts, open, kids, close, Top(stack));
        Reassociate([open], Flatten(kids), [close], Flatten(ts[1..]), rest);
        GroupPrints(open, kids, close, stack, tail);
        Lines4(LinesOf(open, Top(stack)), NestedLines(kids, Inside(open, Top(stack))),
               LinesOf(close, Inside(open, Top(stack))), NestedLines(ts[1..], Top(stack)), PrintFrom(rest, stack));
    }
  }

  lemma NothingUnfolds(encl: Text)
    ensures Flatten([]) == [] && NestedLines([], encl) == []
  {
  }

  lemma RestIsNested(ts: seq<Tree>)
    requires WellNested(ts) && |ts| > 0
    ensures WellNested(ts[1..])
  {
  }

  lemma LeafUnfolds(ts: seq<Tree>, t: Tok, encl: Text)
    requires WellNested(ts) && |ts| > 0 && ts[0] == Tree.Leaf(t)
    ensures !Opens(t.kind) && !Closes(t.kind)
    ensures Flatten(ts) == [t] + Flatten(ts[1..])
    ensures NestedLines(ts, encl) == LinesOf(t, encl) + NestedLines(ts[1..], encl)
  {
    hide LinesOf;
  }

  lemma GroupUnfolds(ts: seq<Tree>, open: Tok, kids: seq<Tree>, close: Tok, encl: Text)
    requires WellNested(ts) && |ts| > 0 && ts[0] == Group(open, kids, close)
    ensures Matching(open, close) && WellNested(kids)
    ensures Flatten(ts) == [open] + (Flatten(kids) + ([close] + Flatten(ts[1..])))
    ensures NestedLines(ts, encl)
         == LinesOf(open, encl)
            + (NestedLines(kids, Inside(open, encl)) + (LinesOf(close, Inside(open, encl)) + NestedLines(ts[1..], encl)))
  {
    hide LinesOf, Inside;
  }

  lemma Reassociate(a: seq<Tok>, b: seq<Tok>, c: seq<Tok>, d: seq<Tok>, e: seq<Tok>)
    ensures (a + (b + (c + d))) + e == a + (b + (c + (d + e)))
  {
  }

  lemma Lines4(a: seq<Line>, b: seq<Line>, c: seq<Line>, d: seq<Line>, e: seq<Line>)
    ensures a + (b + (c + (d + e))) == (a + (b + (c + d))) + e
  {
  }

  lemma {:induction false} GroupPrints(open: Tok, kids: seq<Tree>, close: Tok, stack: seq<Text>, tail: seq<Tok>)
    requires Matching(open, close) && WellNested(kids)
    ensures PrintFrom([open] + (Flatten(kids) + ([close] + tail)), stack)
         == LinesOf(open, Top(stack))
          + (NestedLines(kids, Inside(open, Top(stack)))
          + (LinesOf(close, Inside(open, Top(stack))) + PrintFrom(tail, stack)))
    decreases kids, 1
  {
    hide LinesOf, PrintFrom, Flatten, NestedLines;
    var stack1 := StackAfter(open, stack);
    assert Top(stack1) == Inside(open, Top(stack));
    PrintConcat(open, Flatten(kids) + ([close] + tail), stack);
    PrintReads(kids, stack1, [close] + tail);
    PrintConcat(close, tail, stack1);
    assert StackAfter(close, stack1) == stack;
  }

  // ---------------------------------------------------------------- printer and builder agree

  function ToJson(v: PVal): Json
  {
    match v
    case PInt(n) => JInt(n)
    case PF32(bits) => JF32(bits)
    case PF64(bits) => JF64(bits)
  }

  /** At widths above one the printed elements are, one for one, those of the built list. */
  lemma {:induction false} ElementsAgree(raw: seq<byte>, w: nat, ptype: Text)
    requires w > 1
    ensures |ElemVals(raw, w, ptype)| == |ElemsJson(raw, w, ptype)|
    ensures forall k :: 0 <= k < |ElemVals(raw, w, ptype)| ==>
              ElemsJson(raw, w, ptype)[k] == ToJson(ElemVals(raw, w, ptype)[k])
    decreases |raw|
  {
    if |raw| >= w {
      ElementsAgree(raw[w..], w, ptype);
    }
  }

  /** ... and there are as many of them as the printer says. */
  lemma {:induction false} ElementCount(raw: seq<byte>, w: nat, ptype: Text)
    requires w >= 1
    ensures |ElemVals(raw, w, ptype)| == |raw| / w
    decreases |raw|
  {
    if |raw| >= w {
      ElementCount(raw[w..], w, ptype);
      DivStep(|raw|, w);
    } else {
      assert |raw| / w == 0;
    }
  }

  lemma DivStep(n: nat, w: nat)
    requires 1 <= w <= n
    ensures (n - w) / w + 1 == n / w
  {
    var q := (n - w) / w;
    assert n - w == q * w + (n - w) % w;
    assert (q + 1) * w == q * w + w;
    DivUnique(n, w, q + 1, (n - w) % w);
  }

  lemma DivUnique(n: nat, w: nat, q: nat, r: nat)
    requires w >= 1 && n == q * w + r && r < w
    ensures n / w == q
  {
    assert n / w * w + n % w == q * w + r;
    if n / w > q {
      MulMonotone(q + 1, n / w, w);
    } else if n / w < q {
      MulMonotone(n / w + 1, q, w);
    }
  }

  function PrimLines(lines: seq<Line>): seq<Line>
  {
    if |lines| == 0 then []
    else (if lines[0].PrimLine? then [lines[0]] else []) + PrimLines(lines[1..])
  }

  function Printed(ps: seq<(Tok, Text)>): seq<Line>
  {
    if |ps| == 0 then [] else [PrimLineOf(ps[0].0, ps[0].1)] + Printed(ps[1..])
  }

  lemma PrimLinesStep(a: seq<Line>)
    requires |a| > 0
    ensures PrimLines(a) == (if a[0].PrimLine? then [a[0]] else []) + PrimLines(a[1..])
  {
  }

  lemma {:induction false} PrimLinesConcat(a: seq<Line>, b: seq<Line>)
    ensures PrimLines(a + b) == PrimLines(a) + PrimLines(b)
    decreases |a|
  {
    if |a| == 0 {
      assert a + b == b;
    } else {
      hide PrimLines;
      PrimLinesConcat(a[1..], b);
      assert (a + b)[0] == a[0] && (a + b)[1..] == a[1..] + b;
      PrimLinesStep(a + b);
      PrimLinesStep(a);
      Glue(if a[0].PrimLine? then [a[0]] else [], PrimLines(a[1..]), PrimLines(b));
    }
  }

  lemma PrintedStep(a: seq<(Tok, Text)>)
    requires |a| > 0
    ensures Printed(a) == [PrimLineOf(a[0].0, a[0].1)] + Printed(a[1..])
  {
  }

  lemma {:induction false} PrintedConcat(a: seq<(Tok, Text)>, b: seq<(Tok, Text)>)
    ensures Printed(a + b) == Printed(a) + Printed(b)
    decreases |a|
  {
    if |a| == 0 {
      assert a + b == b;
    } else {
      hide Printed, PrimLineOf;
      PrintedConcat(a[1..], b);
      assert (a + b)[0] == a[0] && (a + b)[1..] == a[1..] + b;
      PrintedStep(a + b);
      PrintedStep(a);
      Glue([PrimLineOf(a[0].0, a[0].1)], Printed(a[1..]), Printed(b));
    }
  }

  lemma LeafTypes(t: Tok, encl: Text, rest: seq<Line>, ps: seq<(Tok, Text)>)
    requires PrimLines(rest) == Printed(ps)
    ensures PrimLines(LinesOf(t, encl) + rest) == Printed((if t.kind == PrimArray then [(t, encl)] else []) + ps)
  {
    hide PrimLineOf, PrimLines, Printed, LinesOf;
    PrimLinesConcat(LinesOf(t, encl), rest);
    OnePrimLine(t, encl);
    PrintedConcat([(t, encl)], ps);
    assert [] + PrimLines(rest) == PrimLines(rest) && [] + ps == ps;
  }

  lemma GroupTypes(open: Tok, close: Tok, encl: Text, inner: seq<Line>, rest: seq<Line>,
                   qs: seq<(Tok, Text)>, ps: seq<(Tok, Text)>)
    requires open.kind != PrimArray && close.kind != PrimArray
    requires PrimLines(inner) == Printed(qs) && PrimLines(rest) == Printed(ps)
    ensures PrimLines(LinesOf(open, encl) + (inner + (LinesOf(close, Inside(open, encl)) + rest))) == Printed(qs + ps)
  {
    hide PrimLineOf, PrimLines, Printed, LinesOf, Inside;
    var inside := Inside(open, encl);
    LeafTypes(close, inside, rest, ps);
    PrimLinesConcat(inner, LinesOf(close, inside) + rest);
    PrintedConcat(qs, ps);
    assert [] + ps == ps && [] + (qs + ps) == qs + ps;
    LeafTypes(open, encl, inner + (LinesOf(close, inside) + rest), qs + ps);
  }

  /** The arrays the printer prints are those of the list, each under its enclosing type. */
  lemma {:induction false} PrinterTypes(ts: seq<Tree>, encl: Text)
    requires WellNested(ts)
    ensures PrimLines(NestedLines(ts, encl)) == Printed(Prims(ts, encl))
    decreases ts
  {
    if |ts| == 0 {
      return;
    }
    hide PrimLineOf, PrimLines, Printed, LinesOf, Inside;
    var rest := NestedLines(ts[1..], encl);
    PrinterTypes(ts[1..], encl);
    match ts[0]
    case Leaf(t) =>
      LeafTypes(t, encl, rest, Prims(ts[1..], encl));
    case Group(open, kids, close) =>
      var inside := Inside(open, encl);
      PrinterTypes(kids, inside);
      GroupTypes(open, close, encl, NestedLines(kids, inside), rest, Prims(kids, inside), Prims(ts[1..], encl));
  }

  lemma OnePrimLine(t: Tok, encl: Text)
    ensures PrimLines(LinesOf(t, encl)) == if t.kind == PrimArray then [PrimLineOf(t, encl)] else []
    ensures t.kind == PrimArray ==> Printed([(t, encl)]) == [PrimLineOf(t, encl)]
  {
    assert Printed([(t, encl)]) == [PrimLineOf(t, encl)] + Printed([]) by { assert [(t, encl)][1..] == []; }
    var ls := LinesOf(t, encl);
    if |ls| > 0 {
      assert ls[1..] == [];
    }
  }

  /**
   On a well-nested list the printer shows exactly the primitive arrays the builder decodes, in the
   same order, each under the enclosing type the builder uses.
   */
  lemma SameTypes(ts: seq<Tree>)
    requires WellNested(ts)
    ensures PrimLines(PrintFrom(Flatten(ts), [])) == Printed(UsedInside(Flatten(ts), 0, []))
  {
    hide PrimLines, Printed, PrintFrom, Flatten, UsedInside, NestedLines, Prims;
    PrintReads(ts, [], []);
    NothingPrinted();
    assert Flatten(ts) + [] == Flatten(ts) && NestedLines(ts, []) + [] == NestedLines(ts, []);
    PrinterTypes(ts, []);
    BuilderTypes(ts);
  }

  lemma NothingPrinted()
    ensures PrintFrom([], []) == []
  {
  }

  // ---------------------------------------------------------------- whole blobs

  /** Printing a decoded forest: the lines of its nesting, each array under its enclosing type. */
  lemma ForestPrints(xs: seq<Item>, tys: TypeTable)
    requires ItemsOk(xs, tys)
    ensures PrintFrom(Flatten(TreesOf(xs, tys, 0)), []) == NestedLines(TreesOf(xs, tys, 0), [])
  {
    hide Flatten, TreesOf, NestedLines;
    var ts := TreesOf(xs, tys, 0);
    ForestIsWellNested(xs, tys, 0);
    PrintReads(ts, [], []);
    assert Flatten(ts) + [] == Flatten(ts);
    assert NestedLines(ts, []) + [] == NestedLines(ts, []);
  }

  /** Decoding a blob and building its value; for the layout of a forest, the forest's value. */
  method DecodeBlobValue(blob: seq<byte>) returns (res: Result<Json>)
    ensures res == ValueOf(blob)
    ensures forall xs: seq<Item>, tys: TypeTable :: ItemsOk(xs, tys) && blob == EncItems(xs, tys, {}) ==>
              res == Success(Meaning(TreesOf(xs, tys, 0)))
  {
    forall xs: seq<Item>, tys: TypeTable | ItemsOk(xs, tys) && blob == EncItems(xs, tys, {})
      ensures Decode(blob) == Success(Flatten(TreesOf(xs, tys, 0)))
      ensures Build(Flatten(TreesOf(xs, tys, 0))) == Meaning(TreesOf(xs, tys, 0))
    {
      ForestMeaning(xs, tys);
    }
    var toks :- OdinDecoder.DecodeBlob(blob);
    var b := new TreeBuilder(toks);
    var root := b.FillContainer(map[]);
    res := Success(JMap(root));
  }

  lemma ForestMeaning(xs: seq<Item>, tys: TypeTable)
    requires ItemsOk(xs, tys)
    ensures Decode(EncItems(xs, tys, {})) == Success(Flatten(TreesOf(xs, tys, 0)))
    ensures Build(Flatten(TreesOf(xs, tys, 0))) == Meaning(TreesOf(xs, tys, 0))
  {
    hide Decode, EncItems, TreesOf, Build, Meaning, Flatten;
    OdinTheorems.DecodeInvertsLayout(xs, tys);
    ForestIsWellNested(xs, tys, 0);
    BuildReads(TreesOf(xs, tys, 0));
  }
}
