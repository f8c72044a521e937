/**
 Building a structured value from a token list with a cursor and a stack of enclosing types, and
 what that builds when the list is well nested.
 */
module OdinTree {
  import opened Common
  import opened Bytes
  import opened Cursors
  import opened Texts
  import opened Odin

  /** Floats stay raw bits, as in the tokens. */
  datatype Json =
    | JNull
    | JInt(n: int)
    | JF32(bits: nat)
    | JF64(bits: nat)
    | JBool(b: bool)
    | JText(t: Text)
    | JList(items: seq<Json>)
    | JMap(fields: map<Text, Json>)

  const TYPE_KEY: Text := [36, 116, 121, 112, 101]
  const ITEMS_KEY: Text := [36, 105, 116, 101, 109, 115]
  const REF_KEY: Text := [36, 114, 101, 102]
  const SINGLE: Text := [83, 105, 110, 103, 108, 101]
  const DOUBLE: Text := [68, 111, 117, 98, 108, 101]
  const INT64: Text := [73, 110, 116, 54, 52]

  // ---------------------------------------------------------------- values of single tokens

  function ScalarJson(v: Val): Json
  {
    match v
    case NoVal => JNull
    case IntVal(n) => JInt(n)
    case F32(bits) => JF32(bits)
    case F64(bits) => JF64(bits)
    case TextVal(t) => JText(t)
    case BoolVal(b) => JBool(b)
  }

  function RefId(v: Val): Text
  {
    match v
    case TextVal(t) => t
    case IntVal(n) => Itoa(n)
    case _ => []
  }

  function RefJson(t: Tok): Json
  {
    JMap(map[REF_KEY := JText(if t.kind == InternalRef then [35] + RefId(t.value) else RefId(t.value))])
  }

  /** One element of a primitive array wider than a byte, typed by the enclosing node. */
  function ElemJson(e: seq<byte>, ptype: Text): Json
    requires |e| >= 1
  {
    if Contains(ptype, SINGLE) && |e| == 4 then JF32(FromLE(e))
    else if Contains(ptype, DOUBLE) && |e| == 8 then JF64(FromLE(e))
    else if Contains(ptype, INT64) && |e| == 8 then JInt(Signed(FromLE(e), 8))
    else if |e| == 4 then JInt(Signed(FromLE(e), 4))
    else if |e| == 8 then JInt(Signed(FromLE(e), 8))
    else if |e| == 2 then JInt(Signed(FromLE(e), 2))
    else JInt(e[0])
  }

  function ElemsJson(raw: seq<byte>, w: nat, ptype: Text): (js: seq<Json>)
    requires w >= 1
    decreases |raw|
  {
    if |raw| < w then [] else [ElemJson(raw[..w], ptype)] + ElemsJson(raw[w..], w, ptype)
  }

  function PrimJson(raw: seq<byte>, w: nat, ptype: Text): Json
  {
    if w <= 1 then JText(Hex(raw)) else JList(ElemsJson(raw, w, ptype))
  }

  predicate Skipped(k: Kind) { k == Eos || k == Raw }
  predicate Closes(k: Kind) { k == NodeEnd || k == ArrayEnd }
  predicate Opens(k: Kind) { k == NodeStart || k == ArrayStart }

  function LeafJson(t: Tok, encl: Text): Json
  {
    match t.kind
    case PrimArray => PrimJson(t.rawArr, t.bytesPer, encl)
    case InternalRef => RefJson(t)
    case ExtRef => RefJson(t)
    case NullTok => JNull
    case _ => ScalarJson(t.value)
  }

  // ---------------------------------------------------------------- containers

  function Put(m: map<Text, Json>, name: Text, v: Json): map<Text, Json>
  {
    if name != [] then m[name := v] else m
  }

  function PutUnnamed(u: seq<Json>, name: Text, v: Json): seq<Json>
  {
    if name != [] then u else u + [v]
  }

  /** Unnamed items end up under one key: alone if there is one, as a list if there are more. */
  function Finish(m: map<Text, Json>, unnamed: seq<Json>): map<Text, Json>
  {
    if |unnamed| == 0 then m
    else if |unnamed| == 1 then m[ITEMS_KEY := unnamed[0]]
    else m[ITEMS_KEY := JList(unnamed)]
  }

  function NodeFields(typeStr: Text): map<Text, Json>
  {
    if typeStr != [] then map[TYPE_KEY := JText(typeStr)] else map[]
  }

  // ---------------------------------------------------------------- the builder, position by position

  datatype Next = Stop(i: nat) | Found(name: Text, value: Json, i: nat)

  function PastClose(toks: seq<Tok>, i: nat, kind: Kind): (j: nat)
    ensures i <= j && (i <= |toks| ==> j <= |toks|)
  {
    if i < |toks| && toks[i].kind == kind then i + 1 else i
  }

  /** The next value at or after i. It stops only at a terminator or at the end of the list. */
  function NextAt(toks: seq<Tok>, i: nat, encl: Text): (r: Next)
    requires i <= |toks|
    ensures r.Found? ==> i < r.i <= |toks|
    ensures r.Stop? ==> i <= r.i <= |toks| && (r.i < |toks| ==> Closes(toks[r.i].kind))
    decreases |toks| - i, 0
  {
    if i == |toks| then Stop(i)
    else
      var t := toks[i];
      if Skipped(t.kind) then NextAt(toks, i + 1, encl)
      else if Closes(t.kind) then Stop(i)
      else if t.kind == NodeStart then
        var (fields, j) := FillAt(toks, i + 1, t.typeStr, NodeFields(t.typeStr), []);
        Found(t.name, JMap(fields), PastClose(toks, j, NodeEnd))
      else if t.kind == ArrayStart then
        var (items, j) := ListAt(toks, i + 1, encl, []);
        Found(t.name, JList(items), PastClose(toks, j, ArrayEnd))
      else Found(t.name, LeafJson(t, encl), i + 1)
  }

  function FillAt(toks: seq<Tok>, i: nat, encl: Text, m: map<Text, Json>, unnamed: seq<Json>)
    : (r: (map<Text, Json>, nat))
    requires i <= |toks|
    ensures i <= r.1 <= |toks| && (r.1 < |toks| ==> Closes(toks[r.1].kind))
    decreases |toks| - i, 1
  {
    match NextAt(toks, i, encl)
    case Stop(j) => (Finish(m, unnamed), j)
    case Found(name, v, j) => FillAt(toks, j, encl, Put(m, name, v), PutUnnamed(unnamed, name, v))
  }

  function ListAt(toks: seq<Tok>, i: nat, encl: Text, items: seq<Json>): (r: (seq<Json>, nat))
    requires i <= |toks|
    ensures i <= r.1 <= |toks| && (r.1 < |toks| ==> Closes(toks[r.1].kind))
    decreases |toks| - i, 1
  {
    match NextAt(toks, i, encl)
    case Stop(j) => (items, j)
    case Found(_, v, j) => ListAt(toks, j, encl, items + [v])
  }

  function Build(toks: seq<Tok>): Json
  {
    JMap(FillAt(toks, 0, [], map[], []).0)
  }

  /** The primitive arrays decoded by the call of NextAt at i, each with the type it is decoded under. */
  function UsedAt(toks: seq<Tok>, i: nat, encl: Text): seq<(Tok, Text)>
    requires i <= |toks|
    decreases |toks| - i, 0
  {
    if i == |toks| || Closes(toks[i].kind) then []
    else
      var t := toks[i];
      if Skipped(t.kind) then UsedAt(toks, i + 1, encl)
      else if t.kind == NodeStart then UsedInside(toks, i + 1, t.typeStr)
      else if t.kind == ArrayStart then UsedInside(toks, i + 1, encl)
      else if t.kind == PrimArray then [(t, encl)]
      else []
  }

  /** The same over a container or an array, from i to where it stops. */
  function UsedInside(toks: seq<Tok>, i: nat, encl: Text): seq<(Tok, Text)>
    requires i <= |toks|
    decreases |toks| - i, 1
  {
    match NextAt(toks, i, encl)
    case Stop(_) => []
    case Found(_, _, j) => UsedAt(toks, i, encl) + UsedInside(toks, j, encl)
  }

  /** A blob's value: its tokens, built. */
  function ValueOf(blob: seq<byte>): Result<Json>
  {
    var toks :- Decode(blob);
    Success(Build(toks))
  }

  // ---------------------------------------------------------------- the builder object

  function Top(stack: seq<Text>): Text { if |stack| > 0 then stack[|stack| - 1] else [] }

  lemma NextStep(toks: seq<Tok>, i: nat, encl: Text)
    requires i <= |toks|
    ensures i == |toks| || Closes(toks[i].kind) ==> NextAt(toks, i, encl) == Stop(i) && UsedAt(toks, i, encl) == []
    ensures i < |toks| && Skipped(toks[i].kind) ==>
              NextAt(toks, i, encl) == NextAt(toks, i + 1, encl) && UsedAt(toks, i, encl) == UsedAt(toks, i + 1, encl)
  {
    hide FillAt, ListAt, UsedInside, LeafJson, NodeFields;
  }

  lemma NodeStep(toks: seq<Tok>, i: nat, encl: Text, fields: map<Text, Json>, j: nat)
    requires i < |toks| && toks[i].kind == NodeStart
    requires (fields, j) == FillAt(toks, i + 1, toks[i].typeStr, NodeFields(toks[i].typeStr), [])
    ensures NextAt(toks, i, encl) == Found(toks[i].name, JMap(fields), PastClose(toks, j, NodeEnd))
    ensures UsedAt(toks, i, encl) == UsedInside(toks, i + 1, toks[i].typeStr)
  {
    hide FillAt, ListAt, UsedInside, LeafJson, NodeFields;
  }

  lemma ArrayStep(toks: seq<Tok>, i: nat, encl: Text, items: seq<Json>, j: nat)
    requires i < |toks| && toks[i].kind == ArrayStart
    requires (items, j) == ListAt(toks, i + 1, encl, [])
    ensures NextAt(toks, i, encl) == Found(toks[i].name, JList(items), PastClose(toks, j, ArrayEnd))
    ensures UsedAt(toks, i, encl) == UsedInside(toks, i + 1, encl)
  {
    hide FillAt, ListAt, UsedInside, LeafJson, NodeFields;
  }

  lemma LeafStep(toks: seq<Tok>, i: nat, encl: Text)
    requires i < |toks| && !Skipped(toks[i].kind) && !Closes(toks[i].kind) && !Opens(toks[i].kind)
    ensures NextAt(toks, i, encl) == Found(toks[i].name, LeafJson(toks[i], encl), i + 1)
    ensures UsedAt(toks, i, encl) == if toks[i].kind == PrimArray then [(toks[i], encl)] else []
  {
    hide FillAt, ListAt, UsedInside, LeafJson, NodeFields;
  }

  /** One more item: what was used before, then by it, then by the rest. */
  lemma UsedStep(toks: seq<Tok>, i: nat, encl: Text, before: seq<(Tok, Text)>)
    requires i <= |toks|
    ensures match NextAt(toks, i, encl)
            case Stop(_) => UsedAt(toks, i, encl) == [] && UsedInside(toks, i, encl) == []
            case Found(_, _, j) =>
              && UsedInside(toks, i, encl) == UsedAt(toks, i, encl) + UsedInside(toks, j, encl)
              && before + UsedInside(toks, i, encl) == before + UsedAt(toks, i, encl) + UsedInside(toks, j, encl)
    decreases |toks| - i
  {
    if i < |toks| && Skipped(toks[i].kind) {
      UsedStep(toks, i + 1, encl, before);
    }
  }

  class TreeBuilder {
    const toks: seq<Tok>
    var i: nat
    var typeStack: seq<Text>
    /** Every primitive array decoded so far, with the type on top of the stack when it was. */
    ghost var used: seq<(Tok, Text)>

    ghost predicate Valid()
      reads this
    {
      i <= |toks|
    }

    constructor (ts: seq<Tok>)
      ensures Valid() && toks == ts && i == 0 && typeStack == [] && used == []
    {
      toks := ts;
      i, typeStack, used := 0, [], [];
    }

    /** Whatever the list, the call ends, and leaves the type stack as it found it. */
    method NextItem() returns (name: Text, value: Json, ok: bool)
      requires Valid()
      modifies this
      ensures Valid() && typeStack == old(typeStack)
      ensures match NextAt(toks, old(i), Top(old(typeStack)))
              case Stop(j) => !ok && i == j
              case Found(n, v, j) => ok && name == n && value == v && i == j
      ensures used == old(used) + UsedAt(toks, old(i), Top(old(typeStack)))
      decreases |toks| - i, 0
    {
      hide NextAt, UsedAt, FillAt, ListAt, UsedInside, LeafJson, NodeFields, PastClose;
      name, value, ok := [], JNull, false;
      while i < |toks| && Skipped(toks[i].kind)
        invariant Valid() && old(i) <= i && typeStack == old(typeStack)
        invariant NextAt(toks, old(i), Top(typeStack)) == NextAt(toks, i, Top(typeStack))
        invariant used == old(used) && UsedAt(toks, old(i), Top(typeStack)) == UsedAt(toks, i, Top(typeStack))
        decreases |toks| - i
      {
        NextStep(toks, i, Top(typeStack));
        i := i + 1;
      }
      NextStep(toks, i, Top(typeStack));
      assert used == used + [];
      if i == |toks| || Closes(toks[i].kind) {
        return;
      }
      name, ok := toks[i].name, true;
      i := i + 1;
      value := ItemValue(toks[i - 1]);
    }

    /** The value of the token just passed. */
    method ItemValue(t: Tok) returns (value: Json)
      requires Valid() && 0 < i && t == toks[i - 1] && !Skipped(t.kind) && !Closes(t.kind)
      modifies this
      ensures Valid() && typeStack == old(typeStack)
      ensures NextAt(toks, old(i) - 1, Top(old(typeStack))) == Found(t.name, value, i)
      ensures used == old(used) + UsedAt(toks, old(i) - 1, Top(old(typeStack)))
      decreases |toks| - i, 3
    {
      hide NextAt, UsedAt, FillAt, ListAt, UsedInside, LeafJson, NodeFields, PastClose;
      ghost var start, encl := i - 1, Top(typeStack);
      if t.kind == NodeStart {
        ghost var (fields, j) := FillAt(toks, i, t.typeStr, NodeFields(t.typeStr), []);
        NodeStep(toks, start, encl, fields, j);
        value := BuildNodeBody(t);
      } else if t.kind == ArrayStart {
        ghost var (items, j) := ListAt(toks, i, encl, []);
        ArrayStep(toks, start, encl, items, j);
        value := BuildArrayBody();
      } else {
        LeafStep(toks, start, encl);
        value := LeafJson(t, Top(typeStack));
        if t.kind == PrimArray {
          used := used + [(t, Top(typeStack))];
        }
      }
    }

    method FillContainer(m: map<Text, Json>) returns (fields: map<Text, Json>)
      requires Valid()
      modifies this
      ensures Valid() && typeStack == old(typeStack)
      ensures (fields, i) == FillAt(toks, old(i), Top(old(typeStack)), m, [])
      ensures used == old(used) + UsedInside(toks, old(i), Top(old(typeStack)))
      decreases |toks| - i, 1
    {
      fields := m;
      var unnamed := [];
      while true
        invariant Valid() && typeStack == old(typeStack) && old(i) <= i
        invariant FillAt(toks, old(i), Top(typeStack), m, []) == FillAt(toks, i, Top(typeStack), fields, unnamed)
        invariant old(used) + UsedInside(toks, old(i), Top(typeStack)) == used + UsedInside(toks, i, Top(typeStack))
        decreases |toks| - i
      {
        UsedStep(toks, i, Top(typeStack), used);
        var name, value, ok := NextItem();
        if !ok {
          break;
        }
        if name != [] {
          fields := fields[name := value];
        } else {
          unnamed := unnamed + [value];
        }
      }
      if |unnamed| == 1 {
        fields := fields[ITEMS_KEY := unnamed[0]];
      } else if |unnamed| > 1 {
        fields := fields[ITEMS_KEY := JList(unnamed)];
      }
    }

    method BuildNodeBody(start: Tok) returns (v: Json)
      requires Valid()
      modifies this
      ensures Valid() && typeStack == old(typeStack)
      ensures var (fields, j) := FillAt(toks, old(i), start.typeStr, NodeFields(start.typeStr), []);
              v == JMap(fields) && i == PastClose(toks, j, NodeEnd)
      ensures used == old(used) + UsedInside(toks, old(i), start.typeStr)
      decreases |toks| - i, 2
    {
      var m: map<Text, Json> := map[];
      if start.typeStr != [] {
        m := map[TYPE_KEY := JText(start.typeStr)];
      }
      typeStack := typeStack + [start.typeStr];
      var fields := FillContainer(m);
      typeStack := typeStack[..|typeStack| - 1];
      if i < |toks| && toks[i].kind == NodeEnd {
        i := i + 1;
      }
      v := JMap(fields);
    }

    method BuildArrayBody() returns (v: Json)
      requires Valid()
      modifies this
      ensures Valid() && typeStack == old(typeStack)
      ensures var (items, j) := ListAt(toks, old(i), Top(old(typeStack)), []);
              v == JList(items) && i == PastClose(toks, j, ArrayEnd)
      ensures used == old(used) + UsedInside(toks, old(i), Top(old(typeStack)))
      decreases |toks| - i, 2
    {
      var arr := [];
      while true
        invariant Valid() && typeStack == old(typeStack) && old(i) <= i
        invariant ListAt(toks, old(i), Top(typeStack), []) == ListAt(toks, i, Top(typeStack), arr)
        invariant old(used) + UsedInside(toks, old(i), Top(typeStack)) == used + UsedInside(toks, i, Top(typeStack))
        decreases |toks| - i
      {
        UsedStep(toks, i, Top(typeStack), used);
        var _, value, ok := NextItem();
        if !ok {
          break;
        }
        arr := arr + [value];
      }
      if i < |toks| && toks[i].kind == ArrayEnd {
        i := i + 1;
      }
      v := JList(arr);
    }
  }

  // ---------------------------------------------------------------- well-nested lists

  predicate Matching(open: Tok, close: Tok)
  {
    (open.kind == NodeStart && close.kind == NodeEnd) || (open.kind == ArrayStart && close.kind == ArrayEnd)
  }

  predicate WellNested(ts: seq<Tree>)
    decreases ts
  {
    |ts| == 0 ||
    (WellNested(ts[1..]) &&
     match ts[0]
     case Leaf(t) => !Opens(t.kind) && !Closes(t.kind)
     case Group(open, kids, close) => Matching(open, close) && WellNested(kids))
  }

  /** The type in force inside a group: a node's own type, or, in an array, the one around it. */
  function Inside(open: Tok, encl: Text): Text { if open.kind == NodeStart then open.typeStr else encl }

  /** The named values a well-nested list stands for, in order. */
  function Entries(ts: seq<Tree>, encl: Text): seq<(Text, Json)>
    decreases ts
  {
    if |ts| == 0 then []
    else
      match ts[0]
      case Leaf(t) =>
        if Skipped(t.kind) then Entries(ts[1..], encl)
        else [(t.name, LeafJson(t, encl))] + Entries(ts[1..], encl)
      case Group(open, kids, _) =>
        [(open.name, GroupJson(open, Entries(kids, Inside(open, encl))))] + Entries(ts[1..], encl)
  }

  function GroupJson(open: Tok, es: seq<(Text, Json)>): Json
  {
    if open.kind == NodeStart then JMap(Finish(Named(NodeFields(open.typeStr), es), Unnamed(es)))
    else JList(Values(es))
  }

  /** Later entries replace earlier ones of the same name. */
  function Named(m: map<Text, Json>, es: seq<(Text, Json)>): map<Text, Json>
    decreases es
  {
    if |es| == 0 then m else Named(Put(m, es[0].0, es[0].1), es[1..])
  }

  function Unnamed(es: seq<(Text, Json)>): seq<Json>
  {
    if |es| == 0 then [] else PutUnnamed([], es[0].0, es[0].1) + Unnamed(es[1..])
  }

  function Values(es: seq<(Text, Json)>): seq<Json>
  {
    if |es| == 0 then [] else [es[0].1] + Values(es[1..])
  }

  function Meaning(ts: seq<Tree>): Json
  {
    JMap(Finish(Named(map[], Entries(ts, [])), Unnamed(Entries(ts, []))))
  }

  /** ts is written in toks from position i. */
  predicate Holds(toks: seq<Tok>, i: nat, ts: seq<Tok>)
    ensures Holds(toks, i, ts) ==> i + |ts| <= |toks|
  {
    i + |ts| <= |toks| && toks[i..i + |ts|] == ts
  }

  lemma HoldsConcat(toks: seq<Tok>, i: nat, a: seq<Tok>, b: seq<Tok>)
    ensures Holds(toks, i, a + b) <==> Holds(toks, i, a) && Holds(toks, i + |a|, b)
  {
    var e := a + b;
    if Holds(toks, i, e) {
      assert a == e[..|a|] && b == e[|a|..];
    }
    if Holds(toks, i, a) && Holds(toks, i + |a|, b) {
      assert toks[i..i + |e|] == toks[i..i + |a|] + toks[i + |a|..i + |a| + |b|];
    }
  }

  lemma HoldsOne(toks: seq<Tok>, i: nat, t: Tok)
    ensures Holds(toks, i, [t]) <==> i < |toks| && toks[i] == t
  {
    if i < |toks| {
      assert toks[i..i + 1] == [toks[i]];
    }
  }

  /** Filling a container over a well-nested stretch adds exactly its entries. */
  lemma {:induction false} FillReads(toks: seq<Tok>, i: nat, ts: seq<Tree>, encl: Text, m: map<Text, Json>,
                                     u: seq<Json>)
    requires WellNested(ts) && Holds(toks, i, Flatten(ts))
    ensures var es := Entries(ts, encl);
            FillAt(toks, i, encl, m, u) == FillAt(toks, i + |Flatten(ts)|, encl, Named(m, es), u + Unnamed(es))
    decreases ts, 2
  {
    hide Holds, NextAt, Finish, WellNested, FillAt, Entries, Flatten, Named, Unnamed, Put, PutUnnamed;
    if |ts| == 0 {
      NothingNested(ts, encl);
      NoEntries(m);
      assert u + [] == u;
    } else {
      NestedTail(ts, encl);
      var es, rest := Entries(ts, encl), ts[1..];
      if Empty(ts[0]) {
        SkipOne(toks, i, ts, encl);
        FillReads(toks, i + 1, rest, encl, m, u);
        FillStep(toks, i, encl, m, u);
      } else {
        OneReads(toks, i, ts, encl);
        var n := |Flatten([ts[0]])|;
        FillStep(toks, i, encl, m, u);
        FillReads(toks, i + n, rest, encl, Put(m, es[0].0, es[0].1), PutUnnamed(u, es[0].0, es[0].1));
        EntryStep(m, u, es);
      }
    }
  }

  lemma EntryStep(m: map<Text, Json>, u: seq<Json>, es: seq<(Text, Json)>)
    requires |es| > 0
    ensures Named(m, es) == Named(Put(m, es[0].0, es[0].1), es[1..])
    ensures u + Unnamed(es) == PutUnnamed(u, es[0].0, es[0].1) + Unnamed(es[1..])
  {
  }

  lemma NoEntries(m: map<Text, Json>)
    ensures Named(m, []) == m && Unnamed([]) == []
  {
  }

  lemma FillStep(toks: seq<Tok>, i: nat, encl: Text, m: map<Text, Json>, u: seq<Json>)
    requires i < |toks|
    ensures match NextAt(toks, i, encl)
            case Found(n, v, j) =>
              FillAt(toks, i, encl, m, u) == FillAt(toks, j, encl, Put(m, n, v), PutUnnamed(u, n, v))
            case Stop(_) => true
    ensures NextAt(toks, i, encl) == NextAt(toks, i + 1, encl) ==>
              FillAt(toks, i, encl, m, u) == FillAt(toks, i + 1, encl, m, u)
  {
  }

  lemma {:induction false} ListReads(toks: seq<Tok>, i: nat, ts: seq<Tree>, encl: Text, items: seq<Json>)
    requires WellNested(ts) && Holds(toks, i, Flatten(ts))
    ensures ListAt(toks, i, encl, items) == ListAt(toks, i + |Flatten(ts)|, encl, items + Values(Entries(ts, encl)))
    decreases ts, 2
  {
    hide Holds, NextAt, WellNested, ListAt, Entries, Flatten;
    if |ts| == 0 {
      NothingNested(ts, encl);
      assert items + [] == items;
    } else {
      NestedTail(ts, encl);
      var es, rest := Entries(ts, encl), ts[1..];
      if Empty(ts[0]) {
        SkipOne(toks, i, ts, encl);
        ListReads(toks, i + 1, rest, encl, items);
        ListStep(toks, i, encl, items);
      } else {
        OneReads(toks, i, ts, encl);
        var n := |Flatten([ts[0]])|;
        ListStep(toks, i, encl, items);
        ListReads(toks, i + n, rest, encl, items + [es[0].1]);
        assert items + [es[0].1] + Values(es[1..]) == items + Values(es);
      }
    }
  }

  lemma ListStep(toks: seq<Tok>, i: nat, encl: Text, items: seq<Json>)
    requires i < |toks|
    ensures match NextAt(toks, i, encl)
            case Found(_, v, j) => ListAt(toks, i, encl, items) == ListAt(toks, j, encl, items + [v])
            case Stop(_) => true
    ensures NextAt(toks, i, encl) == NextAt(toks, i + 1, encl) ==>
              ListAt(toks, i, encl, items) == ListAt(toks, i + 1, encl, items)
  {
  }

  lemma NothingNested(ts: seq<Tree>, encl: Text)
    requires |ts| == 0
    ensures Flatten(ts) == [] && Entries(ts, encl) == []
  {
  }

  lemma NestedTail(ts: seq<Tree>, encl: Text)
    requires |ts| > 0 && WellNested(ts)
    ensures WellNested(ts[1..])
    ensures if Empty(ts[0]) then Entries(ts, encl) == Entries(ts[1..], encl)
            else |Entries(ts, encl)| > 0 && Entries(ts, encl)[1..] == Entries(ts[1..], encl)
    ensures |Flatten(ts)| == |Flatten([ts[0]])| + |Flatten(ts[1..])|
    ensures Empty(ts[0]) ==> |Flatten([ts[0]])| == 1
  {
    FlattenFirst(ts);
  }

  predicate Empty(t: Tree) { t.Leaf? && Skipped(t.tok.kind) }

  lemma SkipOne(toks: seq<Tok>, i: nat, ts: seq<Tree>, encl: Text)
    requires |ts| > 0 && Empty(ts[0]) && Holds(toks, i, Flatten(ts))
    ensures i < |toks| && NextAt(toks, i, encl) == NextAt(toks, i + 1, encl)
    ensures Holds(toks, i + 1, Flatten(ts[1..]))
  {
    HoldsConcat(toks, i, [ts[0].tok], Flatten(ts[1..]));
    HoldsOne(toks, i, ts[0].tok);
  }

  lemma FlattenFirst(ts: seq<Tree>)
    requires |ts| > 0
    ensures Flatten(ts) == Flatten([ts[0]]) + Flatten(ts[1..])
    ensures match ts[0]
            case Leaf(t) => Flatten([ts[0]]) == [t]
            case Group(open, kids, close) => Flatten([ts[0]]) == [open] + (Flatten(kids) + [close])
  {
    FlattenOne(ts[0]);
    match ts[0]
    case Leaf(t) =>
    case Group(open, kids, close) => Regroup([open], Flatten(kids), [close], Flatten(ts[1..]));
  }

  lemma FlattenOne(t: Tree)
    ensures match t
            case Leaf(k) => Flatten([t]) == [k]
            case Group(open, kids, close) => Flatten([t]) == [open] + (Flatten(kids) + [close])
  {
    var one := [t];
    assert one[1..] == [];
    assert Flatten(one[1..]) == [];
  }

  lemma Regroup(a: seq<Tok>, b: seq<Tok>, c: seq<Tok>, d: seq<Tok>)
    ensures a + (b + (c + d)) == a + (b + c) + d
  {
  }

  /** The first item of a well-nested stretch is read as its entry, and the cursor lands after it. */
  lemma {:induction false} OneReads(toks: seq<Tok>, i: nat, ts: seq<Tree>, encl: Text)
    requires |ts| > 0 && !Empty(ts[0]) && WellNested(ts) && Holds(toks, i, Flatten(ts))
    ensures i < |toks| && |Entries(ts, encl)| > 0
    ensures var e := Entries(ts, encl)[0];
            NextAt(toks, i, encl) == Found(e.0, e.1, i + |Flatten([ts[0]])|)
    ensures Holds(toks, i + |Flatten([ts[0]])|, Flatten(ts[1..]))
    decreases ts, 1
  {
    hide Holds, LeafJson, Finish, Named, Unnamed, Values;
    FlattenFirst(ts);
    HoldsConcat(toks, i, Flatten([ts[0]]), Flatten(ts[1..]));
    match ts[0]
    case Leaf(t) =>
      HoldsOne(toks, i, t);
    case Group(open, kids, close) =>
      GroupReads(toks, i, open, kids, close, encl);
  }

  lemma {:induction false} GroupReads(toks: seq<Tok>, i: nat, open: Tok, kids: seq<Tree>, close: Tok, encl: Text)
    requires Matching(open, close)
    requires WellNested(kids) && Holds(toks, i, [open] + (Flatten(kids) + [close]))
    ensures i < |toks|
    ensures NextAt(toks, i, encl)
         == Found(open.name, GroupJson(open, Entries(kids, Inside(open, encl))), i + |Flatten(kids)| + 2)
    decreases kids, 3
  {
    hide Holds, LeafJson, Finish, Named, Unnamed, Values, Entries, NextAt, FillAt, ListAt, Flatten, WellNested;
    var n := |Flatten(kids)|;
    HoldsConcat(toks, i, [open], Flatten(kids) + [close]);
    HoldsConcat(toks, i + 1, Flatten(kids), [close]);
    HoldsOne(toks, i, open);
    HoldsOne(toks, i + 1 + n, close);
    var es, e := Entries(kids, Inside(open, encl)), open.typeStr;
    if open.kind == NodeStart {
      FillReads(toks, i + 1, kids, e, NodeFields(e), []);
      assert [] + Unnamed(es) == Unnamed(es);
      FillStops(toks, i + 1 + n, e, Named(NodeFields(e), es), Unnamed(es));
      NodeStep(toks, i, encl, Finish(Named(NodeFields(e), es), Unnamed(es)), i + 1 + n);
    } else {
      ListReads(toks, i + 1, kids, encl, []);
      assert [] + Values(es) == Values(es);
      ListStops(toks, i + 1 + n, encl, Values(es));
      ArrayStep(toks, i, encl, Values(es), i + 1 + n);
    }
  }

  lemma FillStops(toks: seq<Tok>, i: nat, encl: Text, m: map<Text, Json>, u: seq<Json>)
    requires i <= |toks| && (i == |toks| || Closes(toks[i].kind))
    ensures FillAt(toks, i, encl, m, u) == (Finish(m, u), i)
  {
  }

  lemma ListStops(toks: seq<Tok>, i: nat, encl: Text, items: seq<Json>)
    requires i < |toks| && Closes(toks[i].kind)
    ensures ListAt(toks, i, encl, items) == (items, i)
  {
  }

  /** The primitive arrays of a well-nested list with the type in force where each stands. */
  function Prims(ts: seq<Tree>, encl: Text): seq<(Tok, Text)>
    decreases ts
  {
    if |ts| == 0 then []
    else
      match ts[0]
      case Leaf(t) => (if t.kind == PrimArray then [(t, encl)] else []) + Prims(ts[1..], encl)
      case Group(open, kids, _) => Prims(kids, Inside(open, encl)) + Prims(ts[1..], encl)
  }

  lemma PrimsFirst(ts: seq<Tree>, encl: Text)
    requires |ts| > 0
    ensures Prims(ts, encl) == Prims([ts[0]], encl) + Prims(ts[1..], encl)
    ensures Empty(ts[0]) ==> Prims([ts[0]], encl) == []
    ensures ts[0].Group? ==> Prims([ts[0]], encl) == Prims(ts[0].kids, Inside(ts[0].open, encl))
  {
    var one := [ts[0]];
    assert one[1..] == [];
  }

  /** Over a well-nested stretch the builder uses exactly the stretch's arrays, each under its enclosing type. */
  lemma {:induction false} UsedReads(toks: seq<Tok>, i: nat, ts: seq<Tree>, encl: Text)
    requires WellNested(ts) && Holds(toks, i, Flatten(ts))
    ensures UsedInside(toks, i, encl) == Prims(ts, encl) + UsedInside(toks, i + |Flatten(ts)|, encl)
    decreases ts, 2
  {
    hide Holds, NextAt, WellNested, UsedAt, UsedInside, Prims, Entries, Flatten;
    if |ts| == 0 {
      NothingNested(ts, encl);
      NothingUsed(encl);
    } else {
      NestedTail(ts, encl);
      PrimsFirst(ts, encl);
      var n := |Flatten([ts[0]])|;
      if Empty(ts[0]) {
        SkipOne(toks, i, ts, encl);
        SkippedFirst(toks, i, ts);
        SkipUsed(toks, i, encl);
        UsedReads(toks, i + 1, ts[1..], encl);
      } else {
        OneReads(toks, i, ts, encl);
        OneUsed(toks, i, ts, encl);
        UsedStep(toks, i, encl, []);
        UsedReads(toks, i + n, ts[1..], encl);
        Glue(Prims([ts[0]], encl), Prims(ts[1..], encl), UsedInside(toks, i + |Flatten(ts)|, encl));
      }
    }
  }

  lemma NothingUsed(encl: Text)
    ensures Prims([], encl) == []
  {
  }

  lemma SkippedFirst(toks: seq<Tok>, i: nat, ts: seq<Tree>)
    requires |ts| > 0 && Empty(ts[0]) && Holds(toks, i, Flatten(ts))
    ensures i < |toks| && Skipped(toks[i].kind)
  {
    HoldsConcat(toks, i, [ts[0].tok], Flatten(ts[1..]));
    HoldsOne(toks, i, ts[0].tok);
  }

  lemma SkipUsed(toks: seq<Tok>, i: nat, encl: Text)
    requires i < |toks| && Skipped(toks[i].kind)
    ensures UsedInside(toks, i, encl) == UsedInside(toks, i + 1, encl)
  {
  }

  lemma {:induction false} OneUsed(toks: seq<Tok>, i: nat, ts: seq<Tree>, encl: Text)
    requires |ts| > 0 && !Empty(ts[0]) && WellNested(ts) && Holds(toks, i, Flatten(ts))
    ensures i < |toks| && UsedAt(toks, i, encl) == Prims([ts[0]], encl)
    decreases ts, 1
  {
    hide Holds, UsedInside, NextAt;
    FlattenFirst(ts);
    PrimsFirst(ts, encl);
    HoldsConcat(toks, i, Flatten([ts[0]]), Flatten(ts[1..]));
    match ts[0]
    case Leaf(t) =>
      HoldsOne(toks, i, t);
    case Group(open, kids, close) =>
      GroupUsed(toks, i, open, kids, close, encl);
  }

  lemma {:induction false} GroupUsed(toks: seq<Tok>, i: nat, open: Tok, kids: seq<Tree>, close: Tok, encl: Text)
    requires Matching(open, close)
    requires WellNested(kids) && Holds(toks, i, [open] + (Flatten(kids) + [close]))
    ensures i < |toks| && UsedAt(toks, i, encl) == Prims(kids, Inside(open, encl))
    decreases kids, 3
  {
    hide Holds, Prims, UsedInside, NextAt, Flatten, WellNested;
    var n := |Flatten(kids)|;
    HoldsConcat(toks, i, [open], Flatten(kids) + [close]);
    HoldsConcat(toks, i + 1, Flatten(kids), [close]);
    HoldsOne(toks, i, open);
    HoldsOne(toks, i + 1 + n, close);
    UsedReads(toks, i + 1, kids, Inside(open, encl));
    UsedStops(toks, i + 1 + n, Inside(open, encl));
  }

  lemma UsedStops(toks: seq<Tok>, i: nat, encl: Text)
    requires i <= |toks| && (i == |toks| || Closes(toks[i].kind))
    ensures UsedInside(toks, i, encl) == []
  {
  }

  /** Building a well-nested list decodes its primitive arrays in order, each under the type that encloses it. */
  lemma BuilderTypes(ts: seq<Tree>)
    requires WellNested(ts)
    ensures UsedInside(Flatten(ts), 0, []) == Prims(ts, [])
  {
    hide Flatten, Prims, UsedInside;
    var toks := Flatten(ts);
    assert Holds(toks, 0, toks);
    UsedReads(toks, 0, ts, []);
    UsedStops(toks, |toks|, []);
  }

  /** A well-nested token list is built into exactly the value its nesting describes. */
  lemma BuildReads(ts: seq<Tree>)
    requires WellNested(ts)
    ensures Build(Flatten(ts)) == Meaning(ts)
  {
    hide Entries, Flatten, Named, Unnamed, FillAt, Finish;
    var toks, es := Flatten(ts), Entries(ts, []);
    assert Holds(toks, 0, toks);
    FillReads(toks, 0, ts, [], map[], []);
    assert [] + Unnamed(es) == Unnamed(es);
    FillStops(toks, |toks|, [], Named(map[], es), Unnamed(es));
  }

  // ---------------------------------------------------------------- from blobs to values

  lemma {:induction false} ForestIsWellNested(xs: seq<Item>, tys: TypeTable, depth: int)
    requires ItemsOk(xs, tys)
    ensures WellNested(TreesOf(xs, tys, depth))
    decreases xs
  {
    hide NodeHeadOk, FitsSigned, DenTypeName, DenName;
    if |xs| > 0 {
      assert ItemOk(xs[0], tys) && ItemsOk(xs[1..], tys);
      var ts := TreesOf(xs, tys, depth);
      assert ts[1..] == TreesOf(xs[1..], tys, depth);
      ForestIsWellNested(xs[1..], tys, depth);
      if xs[0].Node? || xs[0].Arr? {
        ForestIsWellNested(xs[0].kids, tys, depth + 1);
      } else {
        LeafStaysLeaf(xs[0], depth);
      }
    }
  }

  lemma LeafStaysLeaf(x: Item, depth: int)
    requires !x.Node? && !x.Arr?
    ensures !Opens(LeafTok(x, depth).kind) && !Closes(LeafTok(x, depth).kind)
  {
  }
}
