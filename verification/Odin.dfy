/**
 The Odin binary format: what a blob says (a forest of nodes, arrays, scalars and references),
 how it is laid out, the tokens it stands for, and what the decoder does at each position.
 */
module Odin {
  import opened Common
  import opened Bytes
  import opened Cursors
  import opened Texts

  const MAX_STRING: nat := 5_000_000

  // ---------------------------------------------------------------- tokens

  datatype Kind =
    | NodeStart | NodeEnd | ArrayStart | ArrayEnd | PrimArray
    | SByteTok | ByteTok | ShortTok | UShortTok | IntTok | UIntTok | LongTok | ULongTok
    | FloatTok | DoubleTok | DecimalTok | CharTok | StringTok | GuidTok | BoolTok
    | NullTok | InternalRef | ExtRef | Eos | Raw

  /** Floating-point payloads stay raw bits. */
  datatype Val = NoVal | IntVal(n: int) | F32(bits: nat) | F64(bits: nat) | TextVal(t: Text) | BoolVal(b: bool)

  /** A primitive array keeps its element width in `bytesPer`. */
  datatype Tok =
    Tok(kind: Kind, name: Text, value: Val, typeStr: Text, bytesPer: nat, rawArr: seq<byte>, depth: int)

  function Simple(kind: Kind, name: Text, value: Val, depth: int): Tok
  {
    Tok(kind, name, value, [], 0, [], depth)
  }

  // ---------------------------------------------------------------- what a blob says

  /** Strings are flagged 1 for UTF-16 and anything else for one byte per character. */
  datatype OStr = Narrow(flag: byte, chars: seq<byte>) | Wide(units: seq<nat>)

  datatype Scalar =
    | Whole(kind: Kind, n: int)
    | Single(bits: nat)
    | Double(bits: nat)
    | Decimal(raw: seq<byte>)
    | Chr(unit: nat)
    | Str(s: OStr)
    | Guid(raw: seq<byte>)
    | Bool(b: byte)

  datatype Item =
    | Node(name: Option<OStr>, ref: Option<int>, ty: Option<int>, kids: seq<Item>)
    | Arr(length: int, kids: seq<Item>)
    | Prim(count: nat, bytesPer: nat, raw: seq<byte>)
    | Scal(name: Option<OStr>, v: Scalar)
    | IntRef(name: Option<OStr>, id: int)
    | ExtIndex(name: Option<OStr>, id: int)
    | ExtGuid(name: Option<OStr>, guid: seq<byte>)
    | ExtText(name: Option<OStr>, s: OStr)
    | Nothing(name: Option<OStr>)
    | Terminator

  type TypeTable = map<int, OStr>

  predicate StrOk(s: OStr)
  {
    match s
    case Narrow(flag, chars) => flag != 1 && |chars| <= MAX_STRING
    case Wide(units) => |units| <= MAX_STRING && forall i :: 0 <= i < |units| ==> units[i] < 65536
  }

  predicate NameOk(n: Option<OStr>) { n.None? || StrOk(n.value) }

  /** The scalar kinds in opcode order, from 0x0F two by two. */
  function ScalarKind(k: nat): Kind
  {
    if k == 0 then SByteTok else if k == 1 then ByteTok else if k == 2 then ShortTok else if k == 3 then UShortTok
    else if k == 4 then IntTok else if k == 5 then UIntTok else if k == 6 then LongTok else if k == 7 then ULongTok
    else if k == 8 then FloatTok else if k == 9 then DoubleTok else if k == 10 then DecimalTok
    else if k == 11 then CharTok else if k == 12 then StringTok else if k == 13 then GuidTok else BoolTok
  }

  function WholeWidth(k: nat): nat { if k < 2 then 1 else if k < 4 then 2 else if k < 6 then 4 else 8 }

  /** sbyte, short, int and long are signed; byte, ushort, uint and ulong are not. */
  predicate WholeSigned(k: nat) { k % 2 == 0 }

  function ScalarCode(v: Scalar): nat
  {
    match v
    case Whole(kind, _) =>
      if kind == SByteTok then 0 else if kind == ByteTok then 1 else if kind == ShortTok then 2
      else if kind == UShortTok then 3 else if kind == IntTok then 4 else if kind == UIntTok then 5
      else if kind == LongTok then 6 else 7
    case Single(_) => 8
    case Double(_) => 9
    case Decimal(_) => 10
    case Chr(_) => 11
    case Str(_) => 12
    case Guid(_) => 13
    case Bool(_) => 14
  }

  predicate ScalarOk(v: Scalar)
  {
    match v
    case Whole(kind, n) =>
      var k := ScalarCode(v);
      ScalarKind(k) == kind && if WholeSigned(k) then FitsSigned(n, WholeWidth(k)) else FitsUnsigned(n, WholeWidth(k))
    case Single(bits) => FitsUnsigned(bits, 4)
    case Double(bits) => FitsUnsigned(bits, 8)
    case Decimal(raw) => |raw| == 16
    case Chr(unit) => FitsUnsigned(unit, 2)
    case Str(s) => StrOk(s)
    case Guid(raw) => |raw| == 16
    case Bool(_) => true
  }

  predicate NodeHeadOk(name: Option<OStr>, ref: Option<int>, ty: Option<int>, tys: TypeTable)
  {
    && NameOk(name) && (ref.Some? ==> FitsSigned(ref.value, 4))
    && (ty.Some? ==> ty.value in tys && FitsSigned(ty.value, 4) && StrOk(tys[ty.value]))
  }

  predicate ItemOk(x: Item, tys: TypeTable)
  {
    match x
    case Node(name, ref, ty, kids) => NodeHeadOk(name, ref, ty, tys) && ItemsOk(kids, tys)
    case Arr(length, kids) => FitsSigned(length, 8) && ItemsOk(kids, tys)
    case Prim(count, bytesPer, raw) =>
      FitsSigned(count, 4) && FitsSigned(bytesPer, 4) && |raw| == count * bytesPer
    case Scal(name, v) => NameOk(name) && ScalarOk(v)
    case IntRef(name, id) => NameOk(name) && FitsSigned(id, 4)
    case ExtIndex(name, id) => NameOk(name) && FitsSigned(id, 4)
    case ExtGuid(name, guid) => NameOk(name) && |guid| == 16
    case ExtText(name, s) => NameOk(name) && StrOk(s)
    case Nothing(name) => NameOk(name)
    case Terminator => true
  }

  predicate ItemsOk(xs: seq<Item>, tys: TypeTable)
  {
    |xs| == 0 || (ItemOk(xs[0], tys) && ItemsOk(xs[1..], tys))
  }

  // ---------------------------------------------------------------- layout

  function EncStr(s: OStr): seq<byte>
    requires StrOk(s)
  {
    match s
    case Narrow(flag, chars) => [flag] + (ToLE(|chars|, 4) + chars)
    case Wide(units) => [1] + (ToLE(|units|, 4) + EncUnits(units))
  }

  /** An opcode and, when it names its value, the name: the unnamed opcode follows the named one. */
  function EncHead(op: byte, name: Option<OStr>): seq<byte>
    requires op < 255 && NameOk(name)
  {
    if name.Some? then [op] + EncStr(name.value) else [op + 1]
  }

  function EncInt(n: int, w: nat): seq<byte>
    requires w > 0 && FitsSigned(n, w)
  {
    ToLE(Unsigned(n, w), w)
  }

  function EncPayload(v: Scalar): seq<byte>
    requires ScalarOk(v)
  {
    match v
    case Whole(_, n) =>
      var k := ScalarCode(v);
      if WholeSigned(k) then EncInt(n, WholeWidth(k)) else ToLE(n, WholeWidth(k))
    case Single(bits) => ToLE(bits, 4)
    case Double(bits) => ToLE(bits, 8)
    case Decimal(raw) => raw
    case Chr(unit) => ToLE(unit, 2)
    case Str(s) => EncStr(s)
    case Guid(raw) => raw
    case Bool(b) => [b]
  }

  /** A type's name is written the first time it is used, and its id alone from then on. */
  function EncTypeMark(ty: Option<int>, tys: TypeTable, seen: set<int>): seq<byte>
    requires ty.Some? ==> ty.value in tys && FitsSigned(ty.value, 4) && StrOk(tys[ty.value])
  {
    if ty.None? then [0x2E]
    else if ty.value in seen then [0x30] + EncInt(ty.value, 4)
    else [0x2F] + (EncInt(ty.value, 4) + EncStr(tys[ty.value]))
  }

  function SeenAfterMark(ty: Option<int>, seen: set<int>): set<int>
  {
    if ty.None? then seen else seen + {ty.value}
  }

  function EncNodeHead(name: Option<OStr>, ref: Option<int>, ty: Option<int>, tys: TypeTable, seen: set<int>): seq<byte>
    requires NodeHeadOk(name, ref, ty, tys)
  {
    EncHead(if ref.Some? then 1 else 3, name)
    + (EncTypeMark(ty, tys, seen) + if ref.Some? then EncInt(ref.value, 4) else [])
  }

  function EncArrayHead(length: int): seq<byte>
    requires FitsSigned(length, 8)
  {
    [0x06] + EncInt(length, 8)
  }

  /** Everything but nodes and arrays is written in one piece. */
  function EncLeaf(x: Item, tys: TypeTable): seq<byte>
    requires ItemOk(x, tys) && !x.Node? && !x.Arr?
  {
    match x
    case Prim(count, bytesPer, raw) => [0x08] + (EncInt(count, 4) + (EncInt(bytesPer, 4) + raw))
    case Scal(name, v) => EncHead(0x0F + 2 * ScalarCode(v), name) + EncPayload(v)
    case IntRef(name, id) => EncHead(0x09, name) + EncInt(id, 4)
    case ExtIndex(name, id) => EncHead(0x0B, name) + EncInt(id, 4)
    case ExtGuid(name, guid) => EncHead(0x0D, name) + guid
    case ExtText(name, s) => EncHead(0x32, name) + EncStr(s)
    case Nothing(name) => EncHead(0x2D, name)
    case Terminator => [0x31]
  }

  function SeenAfter(xs: seq<Item>, seen: set<int>): set<int>
    decreases xs
  {
    if |xs| == 0 then seen
    else
      match xs[0]
      case Node(_, _, ty, kids) => SeenAfter(xs[1..], SeenAfter(kids, SeenAfterMark(ty, seen)))
      case Arr(_, kids) => SeenAfter(xs[1..], SeenAfter(kids, seen))
      case _ => SeenAfter(xs[1..], seen)
  }

  function EncItems(xs: seq<Item>, tys: TypeTable, seen: set<int>): seq<byte>
    requires ItemsOk(xs, tys)
    decreases xs
  {
    if |xs| == 0 then []
    else
      assert ItemOk(xs[0], tys) && ItemsOk(xs[1..], tys);
      match xs[0]
      case Node(name, ref, ty, kids) =>
        var seen1 := SeenAfterMark(ty, seen);
        EncNodeHead(name, ref, ty, tys, seen)
        + (EncItems(kids, tys, seen1) + ([0x05] + EncItems(xs[1..], tys, SeenAfter(kids, seen1))))
      case Arr(length, kids) =>
        EncArrayHead(length)
        + (EncItems(kids, tys, seen) + ([0x07] + EncItems(xs[1..], tys, SeenAfter(kids, seen))))
      case _ => EncLeaf(xs[0], tys) + EncItems(xs[1..], tys, seen)
  }

  // ---------------------------------------------------------------- the tokens a blob stands for

  function DenStr(s: OStr): Text
  {
    match s
    case Narrow(_, chars) => chars
    case Wide(units) => Utf16Decode(units)
  }

  function DenName(n: Option<OStr>): Text { if n.Some? then DenStr(n.value) else [] }

  function DenTypeName(ty: Option<int>, tys: TypeTable): Text
  {
    if ty.Some? && ty.value in tys then DenStr(tys[ty.value]) else []
  }

  const PLACEHOLDER: Text := [63]

  function Hex(raw: seq<byte>): Text
  {
    if |raw| == 0 then [] else [HexDigit(raw[0] / 16), HexDigit(raw[0] % 16)] + Hex(raw[1..])
  }

  function HexDigit(d: nat): nat { if d < 10 then 48 + d else 87 + d }

  /** Decimals and scalar GUIDs are reduced to a placeholder. */
  function DenScalar(v: Scalar): Val
  {
    match v
    case Whole(_, n) => IntVal(n)
    case Single(bits) => F32(bits)
    case Double(bits) => F64(bits)
    case Decimal(_) => TextVal(PLACEHOLDER)
    case Chr(unit) => TextVal(Utf16Decode([unit]))
    case Str(s) => TextVal(DenStr(s))
    case Guid(_) => TextVal(PLACEHOLDER)
    case Bool(b) => BoolVal(b != 0)
  }

  /** Unnamed internal references lose their id. */
  function LeafTok(x: Item, depth: int): Tok
    requires !x.Node? && !x.Arr?
  {
    match x
    case Prim(count, bytesPer, raw) => Tok(PrimArray, [], IntVal(count), [], bytesPer, raw, depth)
    case Scal(name, v) => Simple(ScalarKind(ScalarCode(v)), DenName(name), DenScalar(v), depth)
    case IntRef(name, id) => Simple(InternalRef, DenName(name), if name.Some? then IntVal(id) else NoVal, depth)
    case ExtIndex(name, id) => Simple(ExtRef, DenName(name), IntVal(id), depth)
    case ExtGuid(name, guid) => Simple(ExtRef, DenName(name), TextVal(Hex(guid)), depth)
    case ExtText(name, s) => Simple(ExtRef, DenName(name), TextVal(DenStr(s)), depth)
    case Nothing(name) => Simple(NullTok, DenName(name), NoVal, depth)
    case Terminator => Simple(Eos, [], NoVal, depth)
  }

  function NodeStartTok(name: Text, typeStr: Text, depth: int): Tok
  {
    Tok(NodeStart, name, NoVal, typeStr, 0, [], depth)
  }

  /** Tokens grouped by nesting: a group is a start token, what it encloses, and its end token. */
  datatype Tree = Leaf(tok: Tok) | Group(open: Tok, kids: seq<Tree>, close: Tok)

  function Flatten(ts: seq<Tree>): seq<Tok>
    decreases ts
  {
    if |ts| == 0 then []
    else
      match ts[0]
      case Leaf(t) => [t] + Flatten(ts[1..])
      case Group(open, kids, close) => [open] + (Flatten(kids) + ([close] + Flatten(ts[1..])))
  }

  /** Each token's depth is its nesting, and every type name is spelt out. */
  function TreesOf(xs: seq<Item>, tys: TypeTable, depth: int): seq<Tree>
    requires ItemsOk(xs, tys)
    decreases xs
  {
    if |xs| == 0 then []
    else
      assert ItemOk(xs[0], tys) && ItemsOk(xs[1..], tys);
      match xs[0]
      case Node(name, _, ty, kids) =>
        [Group(NodeStartTok(DenName(name), DenTypeName(ty, tys), depth), TreesOf(kids, tys, depth + 1),
               Simple(NodeEnd, [], NoVal, depth))]
        + TreesOf(xs[1..], tys, depth)
      case Arr(length, kids) =>
        [Group(Simple(ArrayStart, [], IntVal(length), depth), TreesOf(kids, tys, depth + 1),
               Simple(ArrayEnd, [], NoVal, depth))]
        + TreesOf(xs[1..], tys, depth)
      case _ => [Leaf(LeafTok(xs[0], depth))] + TreesOf(xs[1..], tys, depth)
  }

  // ---------------------------------------------------------------- what the decoder does at each position

  /** Everything the opcode loop changes besides the cursor. */
  datatype DState = DState(toks: seq<Tok>, depth: int, cache: map<int, Text>)

  function Add(st: DState, t: Tok): DState { st.(toks := st.toks + [t]) }

  function StrAt(s: seq<byte>, p: nat): (r: Step<Text>)
    ensures r.Ok? ==> p < r.pos <= |s|
  {
    var (flag, q) :- UintAt(s, p, 1);
    var (count, q1) :- IntAt(s, q, 4);
    if count < 0 || count > MAX_STRING then Bad(BadLength)
    else if flag == 1 then
      var (raw, q2) :- TakeAt(s, q1, 2 * count);
      Ok(Utf16Decode(Units(raw)), q2)
    else
      var (raw, q2) :- TakeAt(s, q1, count);
      Ok(raw, q2)
  }

  /** Opcodes come in pairs: the first of a pair is followed by a name, the second is not. */
  function NameAt(s: seq<byte>, p: nat, named: bool): (r: Step<Text>)
    requires p <= |s|
    ensures r.Ok? ==> p <= r.pos <= |s|
  {
    if named then StrAt(s, p) else Ok([], p)
  }

  /** Up to n bytes: running into the end of the blob is tolerated. */
  function SomeAt(s: seq<byte>, p: nat, n: nat): (r: (seq<byte>, nat))
    requires p <= |s|
    ensures p <= r.1 <= |s|
  {
    var q := if p + n <= |s| then p + n else |s|;
    (s[p..q], q)
  }

  function UnknownType(id: int): Text { [35, 105, 100] + Itoa(id) }

  /** A type marker: a name to remember under an id, an id to look up, or no type. */
  function TypeMarkAt(s: seq<byte>, p: nat, cache: map<int, Text>): (r: Step<(Text, map<int, Text>)>)
    requires p <= |s|
    ensures r.Ok? ==> p <= r.pos <= |s|
  {
    if p >= |s| then Ok(([], cache), p)
    else if s[p] == 0x2F then
      var (id, q) :- IntAt(s, p + 1, 4);
      var (name, q1) :- StrAt(s, q);
      Ok((name, cache[id := name]), q1)
    else if s[p] == 0x30 then
      var (id, q) :- IntAt(s, p + 1, 4);
      Ok((if id in cache then cache[id] else UnknownType(id), cache), q)
    else if s[p] == 0x2E then Ok(([], cache), p + 1)
    else Ok(([], cache), p)
  }

  function NodeAt(s: seq<byte>, p: nat, op: byte, st: DState): (r: Step<DState>)
    requires 1 <= op <= 4 && p <= |s|
    ensures r.Ok? ==> p <= r.pos <= |s|
  {
    var (name, q) :- NameAt(s, p, op == 1 || op == 3);
    var (mark, q1) :- TypeMarkAt(s, q, st.cache);
    if op <= 2 then
      var (_, q2) :- IntAt(s, q1, 4);
      Ok(OpenNode(st, name, mark), q2)
    else Ok(OpenNode(st, name, mark), q1)
  }

  function OpenNode(st: DState, name: Text, mark: (Text, map<int, Text>)): DState
  {
    DState(st.toks + [NodeStartTok(name, mark.0, st.depth)], st.depth + 1, mark.1)
  }

  function CloseWith(st: DState, kind: Kind): DState
  {
    DState(st.toks + [Simple(kind, [], NoVal, st.depth - 1)], st.depth - 1, st.cache)
  }

  function ArrayAt(s: seq<byte>, p: nat, st: DState): (r: Step<DState>)
    ensures r.Ok? ==> p <= r.pos <= |s|
  {
    var (length, q) :- IntAt(s, p, 8);
    Ok(DState(st.toks + [Simple(ArrayStart, [], IntVal(length), st.depth)], st.depth + 1, st.cache), q)
  }

  function PrimAt(s: seq<byte>, p: nat, st: DState): (r: Step<DState>)
    ensures r.Ok? ==> p <= r.pos <= |s|
  {
    var (count, q) :- IntAt(s, p, 4);
    var (bytesPer, q1) :- IntAt(s, q, 4);
    if count < 0 || bytesPer < 0 then Bad(BadLength)
    else
      var (raw, q2) :- PrimBytesAt(s, q1, count, bytesPer);
      Ok(Add(st, Tok(PrimArray, [], IntVal(count), [], bytesPer, raw, st.depth)), q2)
  }

  /** The declared length must be in the blob. */
  function PrimBytesAt(s: seq<byte>, p: nat, count: nat, bytesPer: nat): (r: Step<seq<byte>>)
    ensures r.Ok? ==> p <= r.pos <= |s|
  {
    if p + count * bytesPer > |s| then Bad(BadLength) else TakeAt(s, p, count * bytesPer)
  }

  function ScalarAt(s: seq<byte>, p: nat, k: nat): (r: Step<Val>)
    requires p <= |s|
    ensures r.Ok? ==> p <= r.pos <= |s|
  {
    if k < 8 then
      if WholeSigned(k) then
        var (n, q) :- IntAt(s, p, WholeWidth(k));
        Ok(IntVal(n), q)
      else
        var (n, q) :- UintAt(s, p, WholeWidth(k));
        Ok(IntVal(n), q)
    else if k == 8 then
      var (bits, q) :- UintAt(s, p, 4);
      Ok(F32(bits), q)
    else if k == 9 then
      var (bits, q) :- UintAt(s, p, 8);
      Ok(F64(bits), q)
    else if k == 10 || k == 13 then Ok(TextVal(PLACEHOLDER), SomeAt(s, p, 16).1)
    else if k == 11 then
      var (unit, q) :- UintAt(s, p, 2);
      Ok(TextVal(Utf16Decode([unit])), q)
    else if k == 12 then
      var (t, q) :- StrAt(s, p);
      Ok(TextVal(t), q)
    else
      var (b, q) :- UintAt(s, p, 1);
      Ok(BoolVal(b != 0), q)
  }

  /** Opcodes 0x09 to 0x0E, 0x32 and 0x33. */
  function RefAt(s: seq<byte>, p: nat, op: byte, st: DState): (r: Step<DState>)
    requires p <= |s|
    ensures r.Ok? ==> p <= r.pos <= |s|
  {
    var (name, q) :- NameAt(s, p, op == 0x09 || op == 0x0B || op == 0x0D || op == 0x32);
    if op == 0x09 || op == 0x0A then
      var (id, q1) :- IntAt(s, q, 4);
      Ok(Add(st, Simple(InternalRef, name, if op == 0x09 then IntVal(id) else NoVal, st.depth)), q1)
    else if op == 0x0B || op == 0x0C then
      var (id, q1) :- IntAt(s, q, 4);
      Ok(Add(st, Simple(ExtRef, name, IntVal(id), st.depth)), q1)
    else if op == 0x0D || op == 0x0E then
      var (guid, q1) := SomeAt(s, q, 16);
      Ok(Add(st, Simple(ExtRef, name, TextVal(Hex(guid)), st.depth)), q1)
    else
      var (t, q1) :- StrAt(s, q);
      Ok(Add(st, Simple(ExtRef, name, TextVal(t), st.depth)), q1)
  }

  predicate IsRefOp(op: byte) { 0x09 <= op <= 0x0E || op == 0x32 || op == 0x33 }

  /** What one opcode does, the cursor being just after it. */
  function OperandAt(s: seq<byte>, p: nat, op: byte, st: DState): (r: Step<DState>)
    requires p <= |s|
    ensures r.Ok? ==> p <= r.pos <= |s|
  {
    if 0x01 <= op <= 0x04 then NodeAt(s, p, op, st)
    else if op == 0x05 then Ok(CloseWith(st, NodeEnd), p)
    else if op == 0x06 then ArrayAt(s, p, st)
    else if op == 0x07 then Ok(CloseWith(st, ArrayEnd), p)
    else if op == 0x08 then PrimAt(s, p, st)
    else if IsRefOp(op) then RefAt(s, p, op, st)
    else if 0x0F <= op <= 0x2C then
      var (name, q) :- NameAt(s, p, op % 2 == 1);
      var (v, q1) :- ScalarAt(s, q, (op - 0x0F) / 2);
      Ok(Add(st, Simple(ScalarKind((op - 0x0F) / 2), name, v, st.depth)), q1)
    else if op == 0x2D then
      var (name, q) :- NameAt(s, p, true);
      Ok(Add(st, Simple(NullTok, name, NoVal, st.depth)), q)
    else if op == 0x2E then Ok(Add(st, Simple(NullTok, [], NoVal, st.depth)), p)
    else if op == 0x2F then
      var (_, q) :- IntAt(s, p, 4);
      var (_, q1) :- StrAt(s, q);
      Ok(st, q1)
    else if op == 0x30 then
      var (_, q) :- IntAt(s, p, 4);
      Ok(st, q)
    else if op == 0x31 then Ok(Add(st, Simple(Eos, [], NoVal, st.depth)), p)
    else Ok(Add(st, Simple(Raw, [], IntVal(op), st.depth)), p)
  }

  function RunFrom(s: seq<byte>, p: nat, st: DState): (r: Step<DState>)
    decreases if p <= |s| then |s| - p else 0
  {
    if p >= |s| then Ok(st, p)
    else
      var (st1, q) :- OperandAt(s, p + 1, s[p], st);
      RunFrom(s, q, st1)
  }

  function Decode(s: seq<byte>): Result<seq<Tok>>
  {
    match RunFrom(s, 0, DState([], 0, map[]))
    case Ok(st, _) => Success(st.toks)
    case Bad(e) => Failure(e)
  }
}
