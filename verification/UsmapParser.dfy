/**
 The usmap parser: one moving cursor, count-driven loops that append to the tables, and a
 recursive type reader that shares the cursor. Each method does what Usmap's functions say at
 the cursor's position, and the cursor neither moves back nor leaves the buffer.
 */
module UsmapParser {
  import opened Common
  import opened Bytes
  import opened Cursors
  import opened Usmap
  import opened UsmapTheorems

  method ReadRef(r: ByteReader, names: seq<Name>) returns (n: Result<Name>)
    requires r.Valid()
    modifies r
    ensures r.Valid() && old(r.pos) <= r.pos
    ensures Agrees(RefAt(r.data, old(r.pos), names), n, r.pos)
  {
    var idx :- r.Int32();
    n := Resolve(names, idx);
  }

  method ParsePropertyType(r: ByteReader, names: seq<Name>, depth: nat) returns (t: Result<PropType>)
    requires r.Valid()
    modifies r
    ensures r.Valid() && old(r.pos) <= r.pos
    ensures Agrees(TypeAt(r.data, old(r.pos), names, depth), t, r.pos)
    decreases |r.data| - r.pos
  {
    if depth > MAX_NEST_DEPTH {
      return Failure(TooDeep);
    }
    var tag :- r.Uint(1);
    if tag == PT_ENUM {
      var inner :- ParsePropertyType(r, names, depth + 1);
      var name :- ReadRef(r, names);
      return Success(PropType(tag, [], name, Some(inner), None));
    } else if tag == PT_STRUCT {
      var name :- ReadRef(r, names);
      return Success(PropType(tag, name, [], None, None));
    } else if tag == PT_ARRAY || tag == PT_SET || tag == PT_OPTIONAL {
      var inner :- ParsePropertyType(r, names, depth + 1);
      return Success(PropType(tag, [], [], Some(inner), None));
    } else if tag == PT_MAP {
      var inner :- ParsePropertyType(r, names, depth + 1);
      var value :- ParsePropertyType(r, names, depth + 1);
      return Success(PropType(tag, [], [], Some(inner), Some(value)));
    }
    return Success(PropType(tag, [], [], None, None));
  }

  method ParseProperty(r: ByteReader, names: seq<Name>) returns (p: Result<Property>)
    requires r.Valid()
    modifies r
    ensures r.Valid() && old(r.pos) <= r.pos
    ensures Agrees(PropertyAt(r.data, old(r.pos), names), p, r.pos)
  {
    var index :- r.Uint(2);
    var dim :- r.Uint(1);
    var name :- ReadRef(r, names);
    var ty :- ParsePropertyType(r, names, 0);
    p := Success(Property(index, dim, name, ty));
  }

  method ParseStruct(r: ByteReader, names: seq<Name>) returns (s: Result<Struct>)
    requires r.Valid()
    modifies r
    ensures r.Valid() && old(r.pos) <= r.pos
    ensures Agrees(StructAt(r.data, old(r.pos), names), s, r.pos)
  {
    hide UintAt, RefAt, PropertyAt, Pow256;
    var name :- ReadRef(r, names);
    var sup :- ReadRef(r, names);
    var slots :- r.Uint(2);
    var n :- r.Uint(2);
    if n > MAX_PROPS {
      return Failure(OverCap);
    }
    var props := [];
    ghost var item := PropertyItem(r.data, names);
    ghost var p0 := r.pos;
    for i := 0 to n
      invariant r.Valid() && p0 <= r.pos
      invariant Repeat(item, 0, p0, n, []) == Repeat(item, i, r.pos, n - i, props)
    {
      var p :- ParseProperty(r, names);
      props := props + [p];
    }
    s := Success(Struct(name, sup, props));
  }

  method ParseName(r: ByteReader, version: nat) returns (s: Result<Name>)
    requires r.Valid()
    modifies r
    ensures r.Valid() && old(r.pos) <= r.pos
    ensures Agrees(StringAt(r.data, old(r.pos), version), s, r.pos)
  {
    var n;
    if version >= VER_LONG_FNAME {
      n :- r.Uint(2);
    } else {
      n :- r.Uint(1);
    }
    s := r.Take(n);
  }

  method ParseEnum(r: ByteReader, version: nat, names: seq<Name>) returns (e: Result<Enum>)
    requires r.Valid()
    modifies r
    ensures r.Valid() && old(r.pos) <= r.pos
    ensures Agrees(EnumAt(r.data, old(r.pos), version, names), e, r.pos)
  {
    hide UintAt, RefAt, Pow256;
    var name :- ReadRef(r, names);
    var n;
    if version >= VER_LARGE_ENUMS {
      n :- r.Uint(2);
    } else {
      n :- r.Uint(1);
    }
    if n > MAX_ENUM_VALS {
      return Failure(OverCap);
    }
    var table: map<nat, Name> := map[];
    ghost var pairs := [];
    ghost var item := EntryItem(r.data, version, names);
    ghost var p0 := r.pos;
    for j := 0 to n
      invariant r.Valid() && p0 <= r.pos
      invariant Repeat(item, 0, p0, n, []) == Repeat(item, j, r.pos, n - j, pairs)
      invariant table == Tabulate(pairs, map[])
    {
      var value: nat := j;
      if version >= VER_EXPLICIT_ENUMS {
        value :- r.Uint(8);
      }
      var v :- ReadRef(r, names);
      TabulateSnoc(pairs, (value, v), map[]);
      table := table[value := v];
      pairs := pairs + [(value, v)];
    }
    e := Success(Enum(name, table));
  }

  lemma {:induction false} TabulateSnoc(pairs: seq<(nat, Name)>, x: (nat, Name), m: map<nat, Name>)
    ensures Tabulate(pairs + [x], m) == Tabulate(pairs, m)[x.0 := x.1]
  {
    if |pairs| == 0 {
      assert (pairs + [x])[1..] == [];
    } else {
      assert (pairs + [x])[1..] == pairs[1..] + [x];
      TabulateSnoc(pairs[1..], x, m[pairs[0].0 := pairs[0].1]);
    }
  }

  method ReadCount(r: ByteReader, cap: nat) returns (n: Result<nat>)
    requires r.Valid()
    modifies r
    ensures r.Valid() && old(r.pos) <= r.pos
    ensures match UintAt(r.data, old(r.pos), 4)
            case Ok(v, q) => n == (if v > cap then Failure(OverCap) else Success(v)) && r.pos == q
            case Bad(e) => n == Failure(e)
  {
    var v :- r.Uint(4);
    if v > cap {
      return Failure(OverCap);
    }
    n := Success(v);
  }

  method ParseNames(r: ByteReader, version: nat) returns (res: Result<seq<Name>>)
    requires r.Valid()
    modifies r
    ensures r.Valid() && old(r.pos) <= r.pos
    ensures Agrees(CountedAt(r.data, old(r.pos), 4, MAX_NAMES, StringItem(r.data, version)), res, r.pos)
  {
    hide UintAt, StringAt, Pow256;
    var n :- ReadCount(r, MAX_NAMES);
    var names := [];
    ghost var item := StringItem(r.data, version);
    ghost var p0 := r.pos;
    for i := 0 to n
      invariant r.Valid() && p0 <= r.pos
      invariant Repeat(item, 0, p0, n, []) == Repeat(item, i, r.pos, n - i, names)
    {
      var s :- ParseName(r, version);
      names := names + [s];
    }
    res := Success(names);
  }

  method ParseEnums(r: ByteReader, version: nat, names: seq<Name>) returns (res: Result<seq<Enum>>)
    requires r.Valid()
    modifies r
    ensures r.Valid() && old(r.pos) <= r.pos
    ensures Agrees(CountedAt(r.data, old(r.pos), 4, MAX_ENUMS, EnumItem(r.data, version, names)), res, r.pos)
  {
    hide UintAt, EnumAt, Pow256;
    var n :- ReadCount(r, MAX_ENUMS);
    var enums := [];
    ghost var item := EnumItem(r.data, version, names);
    ghost var p0 := r.pos;
    for i := 0 to n
      invariant r.Valid() && p0 <= r.pos
      invariant Repeat(item, 0, p0, n, []) == Repeat(item, i, r.pos, n - i, enums)
    {
      var e :- ParseEnum(r, version, names);
      enums := enums + [e];
    }
    res := Success(enums);
  }

  method ParseStructs(r: ByteReader, names: seq<Name>) returns (res: Result<seq<Struct>>)
    requires r.Valid()
    modifies r
    ensures r.Valid() && old(r.pos) <= r.pos
    ensures Agrees(CountedAt(r.data, old(r.pos), 4, MAX_STRUCTS, StructItem(r.data, names)), res, r.pos)
  {
    hide UintAt, StructAt, Pow256;
    var n :- ReadCount(r, MAX_STRUCTS);
    var structs := [];
    ghost var item := StructItem(r.data, names);
    ghost var p0 := r.pos;
    for i := 0 to n
      invariant r.Valid() && p0 <= r.pos
      invariant Repeat(item, 0, p0, n, []) == Repeat(item, i, r.pos, n - i, structs)
    {
      var s :- ParseStruct(r, names);
      structs := structs + [s];
    }
    res := Success(structs);
  }

  method ParseBody(body: seq<byte>, version: nat) returns (res: Result<Tables>)
    ensures match BodyAt(body, 0, version)
            case Ok(t, _) => res == Success(t)
            case Bad(e) => res == Failure(e)
  {
    var r := new ByteReader(body);
    var names :- ParseNames(r, version);
    var enums :- ParseEnums(r, version, names);
    var structs :- ParseStructs(r, names);
    res := Success(Tables(names, enums, structs));
  }

  method SkipVersioningBlock(r: ByteReader) returns (res: Result<()>)
    requires r.Valid()
    modifies r
    ensures r.Valid() && old(r.pos) <= r.pos
    ensures Agrees(VersioningEnd(r.data, old(r.pos)), res, r.pos)
  {
    var ok := r.Skip(8);
    if !ok { return Failure(Truncated); }
    var count :- r.Int32();
    if count < 0 || count > MAX_ENUMS { return Failure(OverCap); }
    ok := r.Skip(count * 20);
    if !ok { return Failure(Truncated); }
    ok := r.Skip(4);
    if !ok { return Failure(Truncated); }
    res := Success(());
  }

  method ParseHeader(raw: seq<byte>) returns (res: Result<(nat, nat, seq<byte>, nat)>)
    ensures match HeaderAt(raw)
            case Ok(h, _) => res == Success(h)
            case Bad(e) => res == Failure(e)
  {
    hide UintAt, VersioningEnd, Pow256;
    var r := new ByteReader(raw);
    var magic :- r.Uint(2);
    if magic != MAGIC { return Failure(BadMagic); }
    var version :- r.Uint(1);
    if version > VER_LATEST { return Failure(UnsupportedVersion); }
    if version >= VER_PACKAGE_VERSION {
      var flag :- r.Uint(4);
      if flag != 0 {
        var _ :- SkipVersioningBlock(r);
      }
    }
    var scheme :- r.Uint(1);
    var compSize :- r.Uint(4);
    var size :- r.Uint(4);
    if size > MAX_DECOMP_SIZE { return Failure(OverCap); }
    var left := r.Remaining();
    if compSize > left { return Failure(Truncated); }
    res := Success((version, scheme, raw[r.pos..r.pos + compSize], size));
  }

  /**
   The whole parser. An uncompressed image is accepted, with value m, exactly when it is the
   layout of a well-formed file that means m.
   */
  method ParseUsmapBytes(raw: seq<byte>, zstd: Codec) returns (res: Result<Mappings>)
    ensures res == ParseFile(zstd, raw)
    ensures forall m: Mappings :: m.scheme == METHOD_NONE as nat ==>
              (res == Success(m) <==> exists f: RawFile :: FileOk(f) && raw == EncFile(f) && m == DenFile(f))
  {
    hide FileOk, EncFile, DenFile, HeaderAt, BodyAt, Decompress;
    forall m: Mappings | m.scheme == METHOD_NONE as nat
      ensures ParseFile(zstd, raw) == Success(m)
         <==> exists f: RawFile :: FileOk(f) && raw == EncFile(f) && m == DenFile(f)
    {
      AcceptsExactlyTheLayouts(zstd, raw, m);
    }
    var h :- ParseHeader(raw);
    var (version, scheme, comp, size) := h;
    var body :- Decompress(zstd, scheme, comp, size);
    var tables :- ParseBody(body, version);
    res := Success(Mappings(version, scheme, tables));
  }
}
