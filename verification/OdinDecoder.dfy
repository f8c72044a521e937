/**
 The Odin decoder: a loop over opcodes that appends tokens, tracks the depth and remembers type
 names, reading through one cursor. A read past the end or a bad length ends the run with an error.
 */
module OdinDecoder {
  import opened Bytes
  import opened Cursors
  import opened Texts
  import opened Odin
  import opened OdinTheorems

  method ReadString(r: ByteReader) returns (t: Result<Text>)
    requires r.Valid()
    modifies r
    ensures r.Valid() && old(r.pos) <= r.pos
    ensures Agrees(StrAt(r.data, old(r.pos)), t, r.pos)
  {
    var flag :- r.Uint(1);
    var count :- r.Int32();
    if count < 0 || count > MAX_STRING {
      return Failure(BadLength);
    }
    if flag == 1 {
      var raw :- r.Take(2 * count);
      return Success(Utf16Decode(Units(raw)));
    }
    var raw :- r.Take(count);
    return Success(raw);
  }

  class Decoder {
    const r: ByteReader
    var toks: seq<Tok>
    var depth: int
    var typeCache: map<int, Text>

    constructor (data: seq<byte>)
      ensures r.Valid() && fresh(r) && r.data == data && r.pos == 0
      ensures State() == DState([], 0, map[])
    {
      r := new ByteReader(data);
      toks, depth, typeCache := [], 0, map[];
    }

    ghost function State(): DState
      reads this
    {
      DState(toks, depth, typeCache)
    }

    /** Has the decoder reached, in value and cursor, what the position-by-position function says? */
    ghost predicate Reached(spec: Step<DState>, res: Result<()>)
      reads this, r
    {
      match spec
      case Ok(st, q) => res == Success(()) && State() == st && r.pos == q
      case Bad(e) => res == Failure(e)
    }

    method ReadName(named: bool) returns (t: Result<Text>)
      requires r.Valid()
      modifies r
      ensures r.Valid() && old(r.pos) <= r.pos
      ensures Agrees(NameAt(r.data, old(r.pos), named), t, r.pos)
    {
      if named {
        t := ReadString(r);
      } else {
        t := Success([]);
      }
    }

    /** Up to n bytes, stopping early at the end of the blob. */
    method ReadSome(n: nat) returns (bs: seq<byte>)
      requires r.Valid()
      modifies r
      ensures r.Valid()
      ensures (bs, r.pos) == SomeAt(r.data, old(r.pos), n)
    {
      bs := [];
      ghost var p := r.pos;
      var k := 0;
      while k < n && r.pos < |r.data|
        invariant r.Valid() && k <= n && r.pos == p + k
        invariant bs == r.data[p..r.pos]
      {
        bs := bs + [r.data[r.pos]];
        r.pos := r.pos + 1;
        k := k + 1;
      }
    }

    method ReadType() returns (t: Result<Text>)
      requires r.Valid()
      modifies this, r
      ensures r.Valid() && old(r.pos) <= r.pos
      ensures toks == old(toks) && depth == old(depth)
      ensures match TypeMarkAt(r.data, old(r.pos), old(typeCache))
              case Ok((name, cache), q) => t == Success(name) && typeCache == cache && r.pos == q
              case Bad(e) => t == Failure(e)
    {
      if r.pos >= |r.data| {
        return Success([]);
      }
      var mark := r.data[r.pos];
      if mark == 0x2F {
        r.pos := r.pos + 1;
        var id :- r.Int32();
        var s :- ReadString(r);
        typeCache := typeCache[id := s];
        return Success(s);
      } else if mark == 0x30 {
        r.pos := r.pos + 1;
        var id :- r.Int32();
        if id in typeCache {
          return Success(typeCache[id]);
        }
        return Success(UnknownType(id));
      } else if mark == 0x2E {
        r.pos := r.pos + 1;
      }
      return Success([]);
    }

    method StartNode(op: byte) returns (res: Result<()>)
      requires r.Valid() && 1 <= op <= 4
      modifies this, r
      ensures r.Valid() && old(r.pos) <= r.pos
      ensures Reached(NodeAt(r.data, old(r.pos), op, old(State())), res)
    {
      hide StrAt, TypeMarkAt, IntAt;
      var name :- ReadName(op == 1 || op == 3);
      var ty :- ReadType();
      if op <= 2 {
        var _ :- r.Int32();
      }
      toks := toks + [NodeStartTok(name, ty, depth)];
      depth := depth + 1;
      res := Success(());
    }

    method ReadInt64() returns (n: Result<int>)
      requires r.Valid()
      modifies r
      ensures r.Valid() && old(r.pos) <= r.pos
      ensures Agrees(IntAt(r.data, old(r.pos), 8), n, r.pos)
    {
      var u :- r.Uint(8);
      n := Success(Signed(u, 8));
    }

    method StartArray() returns (res: Result<()>)
      requires r.Valid()
      modifies this, r
      ensures r.Valid() && old(r.pos) <= r.pos
      ensures Reached(ArrayAt(r.data, old(r.pos), old(State())), res)
    {
      var length :- ReadInt64();
      toks := toks + [Simple(ArrayStart, [], IntVal(length), depth)];
      depth := depth + 1;
      res := Success(());
    }

    method ReadPrimArray() returns (res: Result<()>)
      requires r.Valid()
      modifies this, r
      ensures r.Valid() && old(r.pos) <= r.pos
      ensures Reached(PrimAt(r.data, old(r.pos), old(State())), res)
    {
      hide IntAt;
      var count :- r.Int32();
      var bytesPer :- r.Int32();
      if count < 0 || bytesPer < 0 {
        return Failure(BadLength);
      }
      var raw :- ReadPrimBytes(count, bytesPer);
      toks := toks + [Tok(PrimArray, [], IntVal(count), [], bytesPer, raw, depth)];
      res := Success(());
    }

    method ReadPrimBytes(count: nat, bytesPer: nat) returns (raw: Result<seq<byte>>)
      requires r.Valid()
      modifies r
      ensures r.Valid() && old(r.pos) <= r.pos
      ensures Agrees(PrimBytesAt(r.data, old(r.pos), count, bytesPer), raw, r.pos)
    {
      var total := count * bytesPer;
      if total > |r.data| - r.pos {
        return Failure(BadLength);
      }
      raw := r.Take(total);
    }

    method ReadScalar(k: nat) returns (v: Result<Val>)
      requires r.Valid()
      modifies r
      ensures r.Valid() && old(r.pos) <= r.pos
      ensures Agrees(ScalarAt(r.data, old(r.pos), k), v, r.pos)
    {
      hide StrAt, UintAt, Utf16Decode, Pow256;
      if k < 8 {
        var u :- r.Uint(WholeWidth(k));
        if WholeSigned(k) {
          return Success(IntVal(Signed(u, WholeWidth(k))));
        }
        return Success(IntVal(u));
      } else if k == 8 {
        var bits :- r.Uint(4);
        return Success(F32(bits));
      } else if k == 9 {
        var bits :- r.Uint(8);
        return Success(F64(bits));
      } else if k == 10 || k == 13 {
        var _ := ReadSome(16);
        return Success(TextVal(PLACEHOLDER));
      } else if k == 11 {
        var unit :- r.Uint(2);
        return Success(TextVal(Utf16Decode([unit])));
      } else if k == 12 {
        var t :- ReadString(r);
        return Success(TextVal(t));
      }
      var b :- r.Uint(1);
      return Success(BoolVal(b != 0));
    }

    method ReadRef(op: byte) returns (res: Result<()>)
      requires r.Valid()
      modifies this, r
      ensures r.Valid() && old(r.pos) <= r.pos
      ensures Reached(RefAt(r.data, old(r.pos), op, old(State())), res)
    {
      hide StrAt, IntAt, NameAt, SomeAt;
      var name :- ReadName(op == 0x09 || op == 0x0B || op == 0x0D || op == 0x32);
      if op == 0x09 || op == 0x0A {
        var id :- r.Int32();
        toks := toks + [Simple(InternalRef, name, if op == 0x09 then IntVal(id) else NoVal, depth)];
      } else if op == 0x0B || op == 0x0C {
        var id :- r.Int32();
        toks := toks + [Simple(ExtRef, name, IntVal(id), depth)];
      } else if op == 0x0D || op == 0x0E {
        var guid := ReadSome(16);
        toks := toks + [Simple(ExtRef, name, TextVal(Hex(guid)), depth)];
      } else {
        var t :- ReadString(r);
        toks := toks + [Simple(ExtRef, name, TextVal(t), depth)];
      }
      res := Success(());
    }

    /** One opcode, already consumed. */
    method Operand(op: byte) returns (res: Result<()>)
      requires r.Valid()
      modifies this, r
      ensures r.Valid() && old(r.pos) <= r.pos
      ensures Reached(OperandAt(r.data, old(r.pos), op, old(State())), res)
    {
      hide NodeAt, ArrayAt, PrimAt, RefAt, ScalarAt, NameAt, StrAt, IntAt, ScalarKind;
      if 0x01 <= op <= 0x04 {
        res := StartNode(op);
      } else if op == 0x05 {
        depth := depth - 1;
        toks := toks + [Simple(NodeEnd, [], NoVal, depth)];
        res := Success(());
      } else if op == 0x06 {
        res := StartArray();
      } else if op == 0x07 {
        depth := depth - 1;
        toks := toks + [Simple(ArrayEnd, [], NoVal, depth)];
        res := Success(());
      } else if op == 0x08 {
        res := ReadPrimArray();
      } else if IsRefOp(op) {
        res := ReadRef(op);
      } else {
        res := Value(op);
      }
    }

    method Value(op: byte) returns (res: Result<()>)
      requires r.Valid()
      requires op == 0 || (op > 0x08 && !IsRefOp(op))
      modifies this, r
      ensures r.Valid() && old(r.pos) <= r.pos
      ensures Reached(OperandAt(r.data, old(r.pos), op, old(State())), res)
    {
      hide NodeAt, ArrayAt, PrimAt, RefAt, ScalarAt, NameAt, StrAt, IntAt, ScalarKind;
      if 0x0F <= op <= 0x2C {
        var name :- ReadName(op % 2 == 1);
        var v :- ReadScalar((op - 0x0F) / 2);
        toks := toks + [Simple(ScalarKind((op - 0x0F) / 2), name, v, depth)];
      } else if op == 0x2D {
        var name :- ReadName(true);
        toks := toks + [Simple(NullTok, name, NoVal, depth)];
      } else if op == 0x2E {
        toks := toks + [Simple(NullTok, [], NoVal, depth)];
      } else if op == 0x2F {
        var _ :- r.Int32();
        var _ :- ReadString(r);
      } else if op == 0x30 {
        var _ :- r.Int32();
      } else if op == 0x31 {
        toks := toks + [Simple(Eos, [], NoVal, depth)];
      } else {
        toks := toks + [Simple(Raw, [], IntVal(op), depth)];
      }
      res := Success(());
    }

    method Run() returns (res: Result<()>)
      requires r.Valid() && r.pos == 0 && State() == DState([], 0, map[])
      modifies this, r
      ensures r.Valid()
      ensures match Decode(r.data)
              case Success(ts) => res == Success(()) && toks == ts && r.pos == |r.data|
              case Failure(e) => res == Failure(e)
    {
      hide OperandAt;
      while r.pos < |r.data|
        invariant r.Valid()
        invariant RunFrom(r.data, 0, DState([], 0, map[])) == RunFrom(r.data, r.pos, State())
        decreases |r.data| - r.pos
      {
        var op := r.data[r.pos];
        r.pos := r.pos + 1;
        var _ :- Operand(op);
      }
      res := Success(());
    }
  }

  /** Decoding a blob, and what that means for a blob that is the layout of a forest. */
  method DecodeBlob(data: seq<byte>) returns (res: Result<seq<Tok>>)
    ensures res == Decode(data)
    ensures forall xs: seq<Item>, tys: TypeTable :: ItemsOk(xs, tys) && data == EncItems(xs, tys, {}) ==>
              res == Success(Flatten(TreesOf(xs, tys, 0)))
  {
    forall xs: seq<Item>, tys: TypeTable | ItemsOk(xs, tys) && data == EncItems(xs, tys, {})
      ensures Decode(data) == Success(Flatten(TreesOf(xs, tys, 0)))
    {
      DecodeInvertsLayout(xs, tys);
    }
    var d := new Decoder(data);
    var _ :- d.Run();
    res := Success(d.toks);
  }
}
