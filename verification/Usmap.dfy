/**
 The .usmap mappings file: what a file says (raw tables whose entries refer to names by index),
 how it is laid out, what it means, and the functions that describe the parser position by
 position. The theorems are in UsmapTheorems; the parser itself is in UsmapParser.
 */
module Usmap {
  import opened Common
  import opened Bytes
  import opened Cursors

  const MAGIC: nat := 0x30C4
  const VER_PACKAGE_VERSION := 1
  const VER_LONG_FNAME := 2
  const VER_LARGE_ENUMS := 3
  const VER_EXPLICIT_ENUMS := 4
  const VER_LATEST := 4
  const MAX_DECOMP_SIZE: nat := 0x2000_0000
  const MAX_NAMES: nat := 5_000_000
  const MAX_ENUMS: nat := 2_000_000
  const MAX_STRUCTS: nat := 2_000_000
  const MAX_ENUM_VALS: nat := 1_000_000
  const MAX_PROPS: nat := 1_000_000
  const MAX_NEST_DEPTH: nat := 32
  const METHOD_NONE: byte := 0
  const METHOD_OODLE: byte := 1
  const METHOD_BROTLI: byte := 2
  const METHOD_ZSTD: byte := 3

  const PT_ARRAY: byte := 8
  const PT_STRUCT: byte := 9
  const PT_MAP: byte := 24
  const PT_SET: byte := 25
  const PT_ENUM: byte := 26
  const PT_OPTIONAL: byte := 28

  type Name = seq<byte>

  // ---------------------------------------------------------------- parsed values

  datatype PropType =
    PropType(tag: byte, structType: Name, enumName: Name, inner: Option<PropType>, value: Option<PropType>)

  datatype Property = Property(index: nat, arrayDim: nat, name: Name, ty: PropType)
  datatype Struct = Struct(name: Name, superType: Name, properties: seq<Property>)
  datatype Enum = Enum(name: Name, names: map<nat, Name>)
  datatype Tables = Tables(names: seq<Name>, enums: seq<Enum>, structs: seq<Struct>)
  datatype Mappings = Mappings(version: nat, scheme: nat, tables: Tables)

  // ---------------------------------------------------------------- what a file says

  datatype RawType =
    | Leaf(tag: byte)
    | StructRef(name: int)
    | EnumOf(inner: RawType, name: int)
    | Wrap(tag: byte, inner: RawType)
    | MapOf(key: RawType, val: RawType)

  datatype RawEntry = RawEntry(value: nat, name: int)
  datatype RawEnum = RawEnum(name: int, entries: seq<RawEntry>)
  datatype RawProperty = RawProperty(index: nat, arrayDim: nat, name: int, ty: RawType)
  datatype RawStruct = RawStruct(name: int, superType: int, slots: nat, properties: seq<RawProperty>)
  datatype RawTables = RawTables(names: seq<Name>, enums: seq<RawEnum>, structs: seq<RawStruct>)

  /** The optional package-versioning block: two engine versions, custom versions of 20 bytes, a change list. */
  datatype RawVersioning = RawVersioning(engine: seq<byte>, custom: seq<byte>, netCL: seq<byte>)

  predicate IsWrap(tag: byte) { tag == PT_ARRAY || tag == PT_SET || tag == PT_OPTIONAL }

  predicate IsPlain(tag: byte)
  {
    !IsWrap(tag) && tag != PT_STRUCT && tag != PT_ENUM && tag != PT_MAP
  }

  predicate NameOk(idx: int, count: nat) { idx == -1 || 0 <= idx < count }

  function Nest(t: RawType): nat
  {
    match t
    case Leaf(_) => 0
    case StructRef(_) => 0
    case EnumOf(inner, _) => 1 + Nest(inner)
    case Wrap(_, inner) => 1 + Nest(inner)
    case MapOf(k, v) => 1 + if Nest(k) > Nest(v) then Nest(k) else Nest(v)
  }

  /** How many nodes a decoded type has. */
  function Nodes(v: PropType): nat
  {
    1 + (if v.inner.Some? then Nodes(v.inner.value) else 0) + (if v.value.Some? then Nodes(v.value.value) else 0)
  }

  predicate TypeOk(t: RawType, count: nat)
  {
    match t
    case Leaf(tag) => IsPlain(tag)
    case StructRef(name) => NameOk(name, count)
    case EnumOf(inner, name) => TypeOk(inner, count) && NameOk(name, count)
    case Wrap(tag, inner) => IsWrap(tag) && TypeOk(inner, count)
    case MapOf(k, v) => TypeOk(k, count) && TypeOk(v, count)
  }

  predicate NameLenOk(name: Name, version: nat)
  {
    FitsUnsigned(|name|, NameWidth(version))
  }

  predicate EntryOk(j: nat, e: RawEntry, version: nat, count: nat)
  {
    NameOk(e.name, count) && if version >= VER_EXPLICIT_ENUMS then FitsUnsigned(e.value, 8) else e.value == j
  }

  ghost predicate EnumOk(e: RawEnum, version: nat, count: nat)
  {
    && NameOk(e.name, count)
    && CountedOk(EntryCountWidth(version), MAX_ENUM_VALS, EntryLegal(version, count), e.entries)
  }

  predicate PropertyOk(p: RawProperty, count: nat)
  {
    && FitsUnsigned(p.index, 2) && FitsUnsigned(p.arrayDim, 1) && NameOk(p.name, count)
    && TypeOk(p.ty, count) && Nest(p.ty) <= MAX_NEST_DEPTH
  }

  ghost predicate StructOk(s: RawStruct, count: nat)
  {
    && NameOk(s.name, count) && NameOk(s.superType, count)
    && FitsUnsigned(s.slots, 2) && CountedOk(2, MAX_PROPS, PropertyLegal(count), s.properties)
  }

  ghost predicate TablesOk(t: RawTables, version: nat)
  {
    && CountedOk(4, MAX_NAMES, NameLegal(version), t.names)
    && CountedOk(4, MAX_ENUMS, EnumLegal(version, |t.names|), t.enums)
    && CountedOk(4, MAX_STRUCTS, StructLegal(|t.names|), t.structs)
  }

  predicate VersioningOk(v: RawVersioning)
  {
    && |v.engine| == 8 && |v.netCL| == 4 && |v.custom| % 20 == 0 && |v.custom| / 20 <= MAX_ENUMS
  }

  function EntryLegal(version: nat, count: nat): (nat, RawEntry) -> bool
  {
    (j: nat, e: RawEntry) => EntryOk(j, e, version, count)
  }

  function PropertyLegal(count: nat): (nat, RawProperty) -> bool { (_: nat, p: RawProperty) => PropertyOk(p, count) }
  function NameLegal(version: nat): (nat, Name) -> bool { (_: nat, n: Name) => NameLenOk(n, version) }
  ghost function EnumLegal(version: nat, count: nat): (nat, RawEnum) -> bool
  {
    (_: nat, e: RawEnum) => EnumOk(e, version, count)
  }

  ghost function StructLegal(count: nat): (nat, RawStruct) -> bool { (_: nat, s: RawStruct) => StructOk(s, count) }

  // ---------------------------------------------------------------- layout

  function NameWidth(version: nat): nat { if version >= VER_LONG_FNAME then 2 else 1 }
  function EntryCountWidth(version: nat): nat { if version >= VER_LARGE_ENUMS then 2 else 1 }

  function EncIdx(idx: int): seq<byte>
    requires -1 <= idx
  {
    ToLE(Unsigned(idx, 4), 4)
  }

  /** A name index as it is written; only indices a table can have are ever written. */
  function EncName(idx: int): seq<byte> { if idx >= -1 then EncIdx(idx) else [] }

  function Tag(t: RawType): byte
  {
    match t
    case Leaf(tag) => tag
    case StructRef(_) => PT_STRUCT
    case EnumOf(_, _) => PT_ENUM
    case Wrap(tag, _) => tag
    case MapOf(_, _) => PT_MAP
  }

  function EncOperands(t: RawType): seq<byte>
    decreases t, 0
  {
    match t
    case Leaf(_) => []
    case StructRef(name) => EncName(name)
    case EnumOf(inner, name) => EncType(inner) + EncName(name)
    case Wrap(_, inner) => EncType(inner)
    case MapOf(k, v) => EncType(k) + EncType(v)
  }

  function EncType(t: RawType): seq<byte>
    decreases t, 1
  {
    [Tag(t)] + EncOperands(t)
  }

  function EncString(version: nat): Name -> seq<byte> { (n: Name) => ToLE(|n|, NameWidth(version)) + n }

  function EncEntry(version: nat): RawEntry -> seq<byte>
  {
    (e: RawEntry) => if version >= VER_EXPLICIT_ENUMS then ToLE(e.value, 8) + EncName(e.name) else EncName(e.name)
  }

  function EncEnum(version: nat): RawEnum -> seq<byte>
  {
    (e: RawEnum) => EncName(e.name) + EncCounted(EntryCountWidth(version), EncEntry(version), e.entries)
  }

  function EncProperty(): RawProperty -> seq<byte>
  {
    (p: RawProperty) => ToLE(p.index, 2) + (ToLE(p.arrayDim, 1) + (EncName(p.name) + EncType(p.ty)))
  }

  function EncStruct(): RawStruct -> seq<byte>
  {
    (s: RawStruct) =>
      EncName(s.name) + (EncName(s.superType) + (ToLE(s.slots, 2) + EncCounted(2, EncProperty(), s.properties)))
  }

  function EncTables(t: RawTables, version: nat): seq<byte>
  {
    EncCounted(4, EncString(version), t.names)
    + (EncCounted(4, EncEnum(version), t.enums) + EncCounted(4, EncStruct(), t.structs))
  }

  function EncVersioning(v: RawVersioning): seq<byte>
  {
    v.engine + (ToLE(|v.custom| / 20, 4) + (v.custom + v.netCL))
  }

  // ---------------------------------------------------------------- meaning

  function NameAt(names: seq<Name>, idx: int): Name { if 0 <= idx < |names| then names[idx] else [] }

  function DenType(t: RawType, names: seq<Name>): PropType
  {
    match t
    case Leaf(tag) => PropType(tag, [], [], None, None)
    case StructRef(name) => PropType(PT_STRUCT, NameAt(names, name), [], None, None)
    case EnumOf(inner, name) => PropType(PT_ENUM, [], NameAt(names, name), Some(DenType(inner, names)), None)
    case Wrap(tag, inner) => PropType(tag, [], [], Some(DenType(inner, names)), None)
    case MapOf(k, v) => PropType(PT_MAP, [], [], Some(DenType(k, names)), Some(DenType(v, names)))
  }

  function DenString(): Name -> Name { (n: Name) => n }

  function DenEntry(names: seq<Name>): RawEntry -> (nat, Name)
  {
    (e: RawEntry) => (e.value, NameAt(names, e.name))
  }

  /** Later entries of an enum overwrite earlier ones with the same value. */
  function Tabulate(pairs: seq<(nat, Name)>, m: map<nat, Name>): map<nat, Name>
  {
    if |pairs| == 0 then m else Tabulate(pairs[1..], m[pairs[0].0 := pairs[0].1])
  }

  function DenEnum(names: seq<Name>): RawEnum -> Enum
  {
    (e: RawEnum) => Enum(NameAt(names, e.name), Tabulate(Map(DenEntry(names), e.entries), map[]))
  }

  function DenProperty(names: seq<Name>): RawProperty -> Property
  {
    (p: RawProperty) => Property(p.index, p.arrayDim, NameAt(names, p.name), DenType(p.ty, names))
  }

  function DenStruct(names: seq<Name>): RawStruct -> Struct
  {
    (s: RawStruct) =>
      Struct(NameAt(names, s.name), NameAt(names, s.superType), Map(DenProperty(names), s.properties))
  }

  function DenTables(t: RawTables): Tables
  {
    Tables(t.names, Map(DenEnum(t.names), t.enums), Map(DenStruct(t.names), t.structs))
  }

  // ---------------------------------------------------------------- what the parser does at each position

  function Resolve(names: seq<Name>, idx: int): Result<Name>
  {
    if idx == -1 then Success([])
    else if idx < 0 || idx >= |names| then Failure(NameOutOfRange)
    else Success(names[idx])
  }

  /** Read a name index and look it up. */
  function RefAt(s: seq<byte>, p: nat, names: seq<Name>): (r: Step<Name>)
    ensures r.Ok? ==> r.pos == p + 4 <= |s|
  {
    var (idx, q) :- IntAt(s, p, 4);
    match Resolve(names, idx)
    case Failure(e) => Bad(e)
    case Success(n) => Ok(n, q)
  }

  function TypeAt(s: seq<byte>, p: nat, names: seq<Name>, depth: nat): (r: Step<PropType>)
    ensures r.Ok? ==> p < r.pos <= |s|
    decreases if p <= |s| then |s| - p else 0, 1
  {
    if depth > MAX_NEST_DEPTH then Bad(TooDeep)
    else
      var (tag, q) :- UintAt(s, p, 1);
      OperandsAt(s, q, tag, names, depth)
  }

  /** What follows a type tag: nested types, then the name of an enum or struct. */
  function OperandsAt(s: seq<byte>, q: nat, tag: byte, names: seq<Name>, depth: nat): (r: Step<PropType>)
    requires q <= |s|
    ensures r.Ok? ==> q <= r.pos <= |s|
    decreases |s| - q, 2
  {
    if tag == PT_ENUM then
      var (inner, q1) :- TypeAt(s, q, names, depth + 1);
      var (name, q2) :- RefAt(s, q1, names);
      Ok(PropType(tag, [], name, Some(inner), None), q2)
    else if tag == PT_STRUCT then
      var (name, q1) :- RefAt(s, q, names);
      Ok(PropType(tag, name, [], None, None), q1)
    else if IsWrap(tag) then
      var (inner, q1) :- TypeAt(s, q, names, depth + 1);
      Ok(PropType(tag, [], [], Some(inner), None), q1)
    else if tag == PT_MAP then
      var (inner, q1) :- TypeAt(s, q, names, depth + 1);
      var (value, q2) :- TypeAt(s, q1, names, depth + 1);
      Ok(PropType(tag, [], [], Some(inner), Some(value)), q2)
    else Ok(PropType(tag, [], [], None, None), q)
  }

  function StringAt(s: seq<byte>, p: nat, version: nat): (r: Step<Name>)
    ensures r.Ok? ==> r.pos <= |s|
  {
    var (n, q) :- UintAt(s, p, NameWidth(version));
    TakeAt(s, q, n)
  }

  function EntryAt(s: seq<byte>, j: nat, p: nat, version: nat, names: seq<Name>): (r: Step<(nat, Name)>)
    ensures r.Ok? ==> r.pos <= |s|
  {
    if version >= VER_EXPLICIT_ENUMS then
      var (value, q) :- UintAt(s, p, 8);
      var (name, q1) :- RefAt(s, q, names);
      Ok((value, name), q1)
    else
      var (name, q1) :- RefAt(s, p, names);
      Ok((j, name), q1)
  }

  function EnumAt(s: seq<byte>, p: nat, version: nat, names: seq<Name>): (r: Step<Enum>)
  {
    var (name, q) :- RefAt(s, p, names);
    var (pairs, q1) :- CountedAt(s, q, EntryCountWidth(version), MAX_ENUM_VALS, EntryItem(s, version, names));
    Ok(Enum(name, Tabulate(pairs, map[])), q1)
  }

  function PropertyAt(s: seq<byte>, p: nat, names: seq<Name>): (r: Step<Property>)
    ensures r.Ok? ==> r.pos <= |s|
  {
    var (index, q) :- UintAt(s, p, 2);
    var (dim, q1) :- UintAt(s, q, 1);
    var (name, q2) :- RefAt(s, q1, names);
    var (ty, q3) :- TypeAt(s, q2, names, 0);
    Ok(Property(index, dim, name, ty), q3)
  }

  function StructAt(s: seq<byte>, p: nat, names: seq<Name>): (r: Step<Struct>)
  {
    var (name, q) :- RefAt(s, p, names);
    var (sup, q1) :- RefAt(s, q, names);
    var (_, q2) :- UintAt(s, q1, 2);
    var (props, q3) :- CountedAt(s, q2, 2, MAX_PROPS, PropertyItem(s, names));
    Ok(Struct(name, sup, props), q3)
  }

  function StringItem(s: seq<byte>, version: nat): (nat, nat) -> Step<Name> { (_: nat, p: nat) => StringAt(s, p, version) }
  function EntryItem(s: seq<byte>, version: nat, names: seq<Name>): (nat, nat) -> Step<(nat, Name)>
  {
    (j: nat, p: nat) => EntryAt(s, j, p, version, names)
  }
  function EnumItem(s: seq<byte>, version: nat, names: seq<Name>): (nat, nat) -> Step<Enum>
  {
    (_: nat, p: nat) => EnumAt(s, p, version, names)
  }
  function PropertyItem(s: seq<byte>, names: seq<Name>): (nat, nat) -> Step<Property>
  {
    (_: nat, p: nat) => PropertyAt(s, p, names)
  }
  function StructItem(s: seq<byte>, names: seq<Name>): (nat, nat) -> Step<Struct>
  {
    (_: nat, p: nat) => StructAt(s, p, names)
  }

  function BodyAt(s: seq<byte>, p: nat, version: nat): (r: Step<Tables>)
  {
    var (names, p1) :- CountedAt(s, p, 4, MAX_NAMES, StringItem(s, version));
    var (enums, p2) :- CountedAt(s, p1, 4, MAX_ENUMS, EnumItem(s, version, names));
    var (structs, p3) :- CountedAt(s, p2, 4, MAX_STRUCTS, StructItem(s, names));
    Ok(Tables(names, enums, structs), p3)
  }

  function VersioningEnd(s: seq<byte>, p: nat): (r: Step<()>)
    ensures r.Ok? ==> p <= r.pos <= |s|
  {
    var (_, q) :- TakeAt(s, p, 8);
    var (count, q1) :- IntAt(s, q, 4);
    if count < 0 || count > MAX_ENUMS then Bad(OverCap)
    else
      var (_, q2) :- TakeAt(s, q1, count * 20);
      var (_, q3) :- TakeAt(s, q2, 4);
      Ok((), q3)
  }

  /** From version 1 on, a four-byte flag says whether a versioning block follows. */
  function OptionalVersioningEnd(s: seq<byte>, p: nat, version: nat): (r: Step<()>)
    ensures r.Ok? ==> p <= r.pos <= |s| || r.pos == p
  {
    if version >= VER_PACKAGE_VERSION then
      var (flag, q) :- UintAt(s, p, 4);
      if flag != 0 then VersioningEnd(s, q) else Ok((), q)
    else Ok((), p)
  }

  /** The codec is a parameter: all that is used of it is the bytes it returns, if any. */
  type Codec = seq<byte> -> Option<seq<byte>>

  function Decompress(zstd: Codec, scheme: nat, comp: seq<byte>, size: nat): Result<seq<byte>>
  {
    if scheme == METHOD_NONE then
      if |comp| != size then Failure(SizeMismatch) else Success(comp)
    else if scheme == METHOD_ZSTD then
      match zstd(comp)
      case None => Failure(CodecFailed)
      case Some(out) => if |out| != size then Failure(SizeMismatch) else Success(out)
    else if scheme == METHOD_OODLE then Failure(OodleCompressed)
    else if scheme == METHOD_BROTLI then Failure(BrotliCompressed)
    else Failure(UnknownCompression)
  }

  function ParseFile(zstd: Codec, s: seq<byte>): Result<Mappings>
  {
    match HeaderAt(s)
    case Bad(e) => Failure(e)
    case Ok((version, scheme, comp, size), _) =>
      var body :- Decompress(zstd, scheme, comp, size);
      match BodyAt(body, 0, version)
      case Bad(e) => Failure(e)
      case Ok(tables, _) => Success(Mappings(version, scheme, tables))
  }

  /** Magic, version, versioning block, compression method, and the compressed body. */
  function HeaderAt(s: seq<byte>): (r: Step<(nat, nat, seq<byte>, nat)>)
    ensures r.Ok? ==> r.value.0 <= VER_LATEST
  {
    var (magic, p) :- UintAt(s, 0, 2);
    if magic != MAGIC then Bad(BadMagic)
    else
      var (version, p1) :- UintAt(s, p, 1);
      if version > VER_LATEST then Bad(UnsupportedVersion)
      else
        var (_, p2) :- OptionalVersioningEnd(s, p1, version);
        var (scheme, p3) :- UintAt(s, p2, 1);
        var (compSize, p4) :- UintAt(s, p3, 4);
        var (size, p5) :- UintAt(s, p4, 4);
        if size > MAX_DECOMP_SIZE then Bad(OverCap)
        else
          var (comp, p6) :- TakeAt(s, p5, compSize);
          Ok((version, scheme, comp, size), p6)
  }
}
