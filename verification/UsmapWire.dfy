/**
 The .usmap format byte by byte, in plain numbers: what each field takes and gives at every version,
 and one whole image of each version with all that is read from it.
 */
module UsmapWire {
  import opened Common
  import opened Bytes
  import opened Cursors
  import opened Usmap

  // ---------------------------------------------------------------- one field at a time

  /** In versions 0 and 1 a name is a length byte and so many bytes, in 2 to 4 its length has two bytes. */
  lemma NameBytes(s: seq<byte>, p: nat, version: nat)
    requires version <= 4
    ensures version <= 1 ==>
              StringAt(s, p, version) == if p < |s| && p + 1 + s[p] as nat <= |s| then Ok(s[p + 1..p + 1 + s[p] as nat], p + 1 + s[p] as nat)
                                         else Bad(Truncated)
    ensures version >= 2 ==>
              StringAt(s, p, version) == if p + 2 <= |s| && p + 2 + U16(s, p) <= |s| then Ok(s[p + 2..p + 2 + U16(s, p)], p + 2 + U16(s, p))
                                         else Bad(Truncated)
  {
    hide UintAt;
    FieldBytes(s, p);
  }

  /** A name index has four bytes; all of them 255 stand for no name, and any other must be in range. */
  lemma RefBytes(s: seq<byte>, p: nat, names: seq<Name>)
    ensures RefAt(s, p, names)
         == if p + 4 > |s| then Bad(Truncated)
            else if U32(s, p) == 4294967295 then Ok([], p + 4)
            else if U32(s, p) < 2147483648 && U32(s, p) < |names| then Ok(names[U32(s, p)], p + 4)
            else Bad(NameOutOfRange)
  {
    hide IntAt;
    FieldBytes(s, p);
  }

  /** Type tag 26 is an enum, 9 a struct, 24 a map, 8, 25 and 28 wrap one type, all others stand alone. */
  lemma TypeBytes(s: seq<byte>, p: nat, names: seq<Name>, depth: nat)
    requires p < |s| && depth <= 32
    ensures s[p] == 26 ==>
              TypeAt(s, p, names, depth) == match TypeAt(s, p + 1, names, depth + 1)
                                            case Bad(e) => Bad(e)
                                            case Ok(inner, q) =>
                                              match RefAt(s, q, names)
                                              case Bad(e) => Bad(e)
                                              case Ok(name, q1) => Ok(PropType(26, [], name, Some(inner), None), q1)
    ensures s[p] == 9 ==>
              TypeAt(s, p, names, depth) == match RefAt(s, p + 1, names)
                                            case Bad(e) => Bad(e)
                                            case Ok(name, q) => Ok(PropType(9, name, [], None, None), q)
    ensures s[p] == 8 || s[p] == 25 || s[p] == 28 ==>
              TypeAt(s, p, names, depth) == match TypeAt(s, p + 1, names, depth + 1)
                                            case Bad(e) => Bad(e)
                                            case Ok(inner, q) => Ok(PropType(s[p], [], [], Some(inner), None), q)
    ensures s[p] == 24 ==>
              TypeAt(s, p, names, depth) == match TypeAt(s, p + 1, names, depth + 1)
                                            case Bad(e) => Bad(e)
                                            case Ok(key, q) =>
                                              match TypeAt(s, q, names, depth + 1)
                                              case Bad(e) => Bad(e)
                                              case Ok(val, q1) => Ok(PropType(24, [], [], Some(key), Some(val)), q1)
    ensures s[p] !in {8, 9, 24, 25, 26, 28} ==> TypeAt(s, p, names, depth) == Ok(PropType(s[p], [], [], None, None), p + 1)
  {
    hide UintAt, RefAt;
    FieldBytes(s, p);
  }

  /** Below 33 levels a type is read, at 33 it is refused whatever stands there. */
  lemma TooDeepHere(s: seq<byte>, p: nat, names: seq<Name>, depth: nat)
    requires depth >= 33
    ensures TypeAt(s, p, names, depth) == Bad(TooDeep)
  {
  }

  /** An enum's entries are counted in one byte up to version 2 and in two from version 3 on. */
  lemma EnumBytes(s: seq<byte>, p: nat, version: nat, names: seq<Name>)
    requires version <= 4 && RefAt(s, p, names).Ok?
    ensures EnumAt(s, p, version, names)
         == var w := if version <= 2 then 1 else 2;
            if p + 4 + w > |s| then Bad(Truncated)
            else
              var n := if version <= 2 then s[p + 4] as nat else U16(s, p + 4);
              match Repeat(EntryItem(s, version, names), 0, p + 4 + w, n, [])
              case Bad(e) => Bad(e)
              case Ok(pairs, q) => Ok(Enum(RefAt(s, p, names).value, Tabulate(pairs, map[])), q)
  {
    hide UintAt, RefAt, Repeat, EntryItem;
    FieldBytes(s, p + 4);
  }

  /** Up to version 3 the j-th entry has the value j; in version 4 its value is written, in eight bytes. */
  lemma EntryBytes(s: seq<byte>, j: nat, p: nat, version: nat, names: seq<Name>)
    requires version <= 4
    ensures version <= 3 ==>
              EntryItem(s, version, names)(j, p) == match RefAt(s, p, names)
                                                    case Bad(e) => Bad(e)
                                                    case Ok(name, q) => Ok((j, name), q)
    ensures version == 4 && p + 8 <= |s| ==>
              EntryItem(s, version, names)(j, p) == match RefAt(s, p + 8, names)
                                                    case Bad(e) => Bad(e)
                                                    case Ok(name, q) => Ok((U32(s, p) + 4294967296 * U32(s, p + 4), name), q)
  {
    hide UintAt, RefAt;
    FieldBytes(s, p);
  }

  /** A value has the name that the last entry of that value gives it. */
  lemma {:induction false} LastNameStands(pairs: seq<(nat, Name)>, m: map<nat, Name>, v: nat, n: Name)
    ensures v in Tabulate(pairs, m) && Tabulate(pairs, m)[v] == n <==>
            || (exists i :: 0 <= i < |pairs| && pairs[i] == (v, n) && forall k :: i < k < |pairs| ==> pairs[k].0 != v)
            || (v in m && m[v] == n && forall k :: 0 <= k < |pairs| ==> pairs[k].0 != v)
    decreases |pairs|
  {
    if |pairs| > 0 {
      var rest := pairs[1..];
      LastNameStands(rest, m[pairs[0].0 := pairs[0].1], v, n);
      assert forall k :: 0 <= k < |rest| ==> rest[k] == pairs[k + 1];
      assert forall k :: 1 <= k < |pairs| ==> pairs[k] == rest[k - 1];
      if i :| 0 <= i < |rest| && rest[i] == (v, n) && forall k :: i < k < |rest| ==> rest[k].0 != v {
        assert pairs[i + 1] == (v, n);
      }
      if i :| 0 <= i < |pairs| && pairs[i] == (v, n) && forall k :: i < k < |pairs| ==> pairs[k].0 != v {
        if i > 0 {
          assert rest[i - 1] == (v, n);
        }
      }
    }
  }

  /** Index (two bytes), array dimension (one), name (four), type. */
  lemma PropertyBytes(s: seq<byte>, p: nat, names: seq<Name>)
    requires p + 7 <= |s|
    ensures PropertyItem(s, names)(0, p)
         == match RefAt(s, p + 3, names)
            case Bad(e) => Bad(e)
            case Ok(name, _) =>
              match TypeAt(s, p + 7, names, 0)
              case Bad(e) => Bad(e)
              case Ok(ty, q) => Ok(Property(U16(s, p), s[p + 2] as nat, name, ty), q)
  {
    hide UintAt, RefAt, TypeAt;
    FieldBytes(s, p);
    FieldBytes(s, p + 2);
  }

  /** Name and super type (four bytes each), two bytes not used, and the number of properties in two bytes. */
  lemma StructBytes(s: seq<byte>, p: nat, names: seq<Name>)
    requires p + 12 <= |s| && RefAt(s, p, names).Ok? && RefAt(s, p + 4, names).Ok?
    ensures StructItem(s, names)(0, p)
         == match Repeat(PropertyItem(s, names), 0, p + 12, U16(s, p + 10), [])
            case Bad(e) => Bad(e)
            case Ok(props, q) => Ok(Struct(RefAt(s, p, names).value, RefAt(s, p + 4, names).value, props), q)
  {
    hide UintAt, RefAt, Repeat, PropertyItem;
    FieldBytes(s, p + 8);
    FieldBytes(s, p + 10);
  }

  /** Up to 5000000 names, 2000000 enums and 2000000 structs are read, and a greater count is refused. */
  lemma TableCounts<T>(s: seq<byte>, p: nat, item: (nat, nat) -> Step<T>)
    requires p + 4 <= |s|
    ensures CountedAt(s, p, 4, MAX_NAMES, item) == if U32(s, p) > 5000000 then Bad(OverCap) else Repeat(item, 0, p + 4, U32(s, p), [])
    ensures CountedAt(s, p, 4, MAX_ENUMS, item) == if U32(s, p) > 2000000 then Bad(OverCap) else Repeat(item, 0, p + 4, U32(s, p), [])
    ensures CountedAt(s, p, 4, MAX_STRUCTS, item) == if U32(s, p) > 2000000 then Bad(OverCap) else Repeat(item, 0, p + 4, U32(s, p), [])
  {
    hide UintAt, Repeat;
    FieldBytes(s, p);
  }

  // ---------------------------------------------------------------- the header

  /**
   The bytes 196 and 48, the version, from version 1 on four flag bytes and a block if they are not all
   0, the method, two sizes, and the body. The block: 8 bytes, a count, 20 bytes for each, 4 bytes.
   */
  lemma HeaderBytes(s: seq<byte>, p: nat)
    requires |s| >= 3 && s[0] == 196 && s[1] == 48 && s[2] <= 4
    requires if s[2] == 0 then p == 3
             else if |s| >= 7 && U32(s, 3) == 0 then p == 7
             else |s| >= 19 && U32(s, 15) <= 2_000_000 && p == 23 + 20 * U32(s, 15)
    requires p + 9 <= |s| && p + 9 + U32(s, p + 1) <= |s| && U32(s, p + 5) <= 536870912
    ensures HeaderAt(s) == Ok((s[2] as nat, s[p] as nat, s[p + 9..p + 9 + U32(s, p + 1)], U32(s, p + 5)), p + 9 + U32(s, p + 1))
  {
    hide UintAt, OptionalVersioningEnd;
    FieldBytes(s, 0);
    FieldBytes(s, 2);
    BlockBytes(s, p);
    FieldBytes(s, p);
    FieldBytes(s, p + 1);
    FieldBytes(s, p + 5);
  }

  lemma BlockBytes(s: seq<byte>, p: nat)
    requires |s| >= 3 && s[2] <= 4 && p <= |s|
    requires if s[2] == 0 then p == 3
             else if |s| >= 7 && U32(s, 3) == 0 then p == 7
             else |s| >= 19 && U32(s, 15) <= 2_000_000 && p == 23 + 20 * U32(s, 15)
    ensures OptionalVersioningEnd(s, 3, s[2] as nat) == Ok((), p)
  {
    hide UintAt, IntAt;
    FieldBytes(s, 3);
    FieldBytes(s, 15);
  }

  /** Nothing else is taken for a header. */
  lemma BadHeader(s: seq<byte>)
    ensures |s| >= 2 && !(s[0] == 196 && s[1] == 48) ==> HeaderAt(s) == Bad(BadMagic)
    ensures |s| >= 3 && s[0] == 196 && s[1] == 48 && s[2] > 4 ==> HeaderAt(s) == Bad(UnsupportedVersion)
  {
    hide UintAt;
    FieldBytes(s, 0);
    FieldBytes(s, 2);
  }

  /** Method 0 stores the body as it is, 3 goes through the codec, 1, 2 and all others are refused, each in its way. */
  lemma Methods(zstd: Codec, scheme: nat, comp: seq<byte>, size: nat)
    ensures scheme == 0 ==> Decompress(zstd, scheme, comp, size) == if |comp| == size then Success(comp) else Failure(SizeMismatch)
    ensures scheme == 3 ==>
              Decompress(zstd, scheme, comp, size) == match zstd(comp)
                                                      case None => Failure(CodecFailed)
                                                      case Some(out) => if |out| == size then Success(out) else Failure(SizeMismatch)
    ensures scheme == 1 ==> Decompress(zstd, scheme, comp, size) == Failure(OodleCompressed)
    ensures scheme == 2 ==> Decompress(zstd, scheme, comp, size) == Failure(BrotliCompressed)
    ensures scheme > 3 ==> Decompress(zstd, scheme, comp, size) == Failure(UnknownCompression)
  {
  }

  // ---------------------------------------------------------------- whole images

  /** The names "A" and "B", with lengths of one and of two bytes. */
  const NAMES_1: seq<byte> := [2, 0, 0, 0, 1, 65, 1, 66]
  const NAMES_2: seq<byte> := [2, 0, 0, 0, 1, 0, 65, 1, 0, 66]

  /** One enum "A" with one entry "B": counted in one byte, in two, and with the value 7 + 2^56. */
  const ENUMS_1: seq<byte> := [1, 0, 0, 0, 0, 0, 0, 0, 1, 1, 0, 0, 0]
  const ENUMS_3: seq<byte> := [1, 0, 0, 0, 0, 0, 0, 0, 1, 0, 1, 0, 0, 0]
  const ENUMS_4: seq<byte> := [1, 0, 0, 0, 0, 0, 0, 0, 1, 0, 7, 0, 0, 0, 0, 0, 0, 1, 1, 0, 0, 0]

  /** One struct "A" without super type and one property "B": index 258, dimension 5, a map of an enum "A" to "B"s. */
  const STRUCT_HEAD: seq<byte> := [1, 0, 0, 0, 0, 0, 0, 0, 255, 255, 255, 255, 3, 0, 1, 0]
  const PROPERTY: seq<byte> := [2, 1, 5, 1, 0, 0, 0, 24, 26, 0, 0, 0, 0, 0, 9, 1, 0, 0, 0]

  const AB: seq<Name> := [[65], [66]]

  function Names(version: nat): seq<byte> { if version <= 1 then NAMES_1 else NAMES_2 }
  function Enums(version: nat): seq<byte> { if version <= 2 then ENUMS_1 else if version == 3 then ENUMS_3 else ENUMS_4 }

  function Body(version: nat): seq<byte> { Names(version) + (Enums(version) + (STRUCT_HEAD + PROPERTY)) }

  /** What the tables say: the enum's value is the entry's place up to version 3. */
  function TablesOf(version: nat): Tables
  {
    var enumType := PropType(26, [], [65], Some(PropType(0, [], [], None, None)), None);
    var mapType := PropType(24, [], [], Some(enumType), Some(PropType(9, [66], [], None, None)));
    Tables([[65], [66]],
           [Enum([65], if version == 4 then map[72057594037927943 := [66]] else map[0 := [66]])],
           [Struct([65], [], [Property(258, 5, [66], mapType)])])
  }

  lemma OneElement<T>(s: seq<byte>, p: nat, w: nat, cap: nat, item: (nat, nat) -> Step<T>, x: T, q: nat)
    requires UintAt(s, p, w) == Ok(1, p + w) && cap >= 1 && item(0, p + w) == Ok(x, q)
    ensures CountedAt(s, p, w, cap, item) == Ok([x], q)
  {
    hide UintAt;
    OneRepeated(item, p + w, x, q);
  }

  lemma OneRepeated<T>(item: (nat, nat) -> Step<T>, p: nat, x: T, q: nat)
    requires item(0, p) == Ok(x, q)
    ensures Repeat(item, 0, p, 1, []) == Ok([x], q)
  {
    assert [] + [x] == [x];
    assert Repeat(item, 1, q, 0, [x]) == Ok([x], q);
  }

  lemma TwoElements<T>(s: seq<byte>, p: nat, cap: nat, item: (nat, nat) -> Step<T>, x: T, q: nat, y: T, r: nat)
    requires UintAt(s, p, 4) == Ok(2, p + 4) && cap >= 2 && item(0, p + 4) == Ok(x, q) && item(1, q) == Ok(y, r)
    ensures CountedAt(s, p, 4, cap, item) == Ok([x, y], r)
  {
    hide UintAt;
    assert [] + [x] == [x] && [x] + [y] == [x, y];
    assert Repeat(item, 2, r, 0, [x, y]) == Ok([x, y], r);
    assert Repeat(item, 1, q, 1, [x]) == Ok([x, y], r);
  }

  lemma StandsAt(s: seq<byte>, p: nat, e: seq<byte>)
    requires At(s, p, e)
    ensures p + |e| <= |s| && forall k :: 0 <= k < |e| ==> s[p + k] == e[k]
  {
  }

  lemma NamesRead(s: seq<byte>, p: nat, version: nat)
    requires version <= 4 && At(s, p, Names(version))
    ensures CountedAt(s, p, 4, MAX_NAMES, StringItem(s, version)) == Ok(AB, p + |Names(version)|)
  {
    hide UintAt, StringAt, CountedAt, At;
    var e, w := Names(version), if version <= 1 then 1 else 2;
    StandsAt(s, p, e);
    assert e[0] == 2 && e[1] == 0 && e[2] == 0 && e[3] == 0 && e[4] == 1 && (w == 2 ==> e[5] == 0);
    FieldBytes(s, p);
    NameBytes(s, p + 4, version);
    assert e[4 + w] == 65 && e[5 + w] == 1 && (w == 2 ==> e[8] == 0) && e[5 + 2 * w] == 66;
    NameBytes(s, p + 5 + w, version);
    assert s[p + 4 + w..p + 5 + w] == [65] && s[p + 5 + 2 * w..p + 6 + 2 * w] == [66];
    TwoElements(s, p, MAX_NAMES, StringItem(s, version), [65], p + 5 + w, [66], p + 6 + 2 * w);
  }

  lemma EnumsRead(s: seq<byte>, p: nat, version: nat)
    requires version <= 4 && At(s, p, Enums(version))
    ensures CountedAt(s, p, 4, MAX_ENUMS, EnumItem(s, version, AB)) == Ok(TablesOf(version).enums, p + |Enums(version)|)
  {
    hide UintAt, RefAt, EnumAt, EntryItem, CountedAt, At, Tabulate, Enums;
    EnumHeadRead(s, p, version);
    EntryRead(s, p, version);
    var q := if version <= 2 then p + 9 else p + 10;
    var v := if version == 4 then 72057594037927943 else 0;
    OneRepeated(EntryItem(s, version, AB), q, (v, [66]), p + |Enums(version)|);
    OneEntry(v);
    OneElement(s, p, 4, MAX_ENUMS, EnumItem(s, version, AB), TablesOf(version).enums[0], p + |Enums(version)|);
  }

  /** One enum, its name, and the number of its entries. */
  lemma EnumHeadRead(s: seq<byte>, p: nat, version: nat)
    requires version <= 4 && At(s, p, Enums(version))
    ensures UintAt(s, p, 4) == Ok(1, p + 4)
    ensures EnumAt(s, p + 4, version, AB)
         == match Repeat(EntryItem(s, version, AB), 0, if version <= 2 then p + 9 else p + 10, 1, [])
            case Bad(e) => Bad(e)
            case Ok(pairs, q) => Ok(Enum([65], Tabulate(pairs, map[])), q)
  {
    hide UintAt, RefAt, EnumAt, EntryItem, Repeat, At, Tabulate;
    var e := Enums(version);
    StandsAt(s, p, e);
    FieldBytes(s, p);
    assert e[0] == 1 && e[1] == 0 && e[2] == 0 && e[3] == 0 && e[4] == 0 && e[5] == 0 && e[6] == 0 && e[7] == 0;
    RefBytes(s, p + 4, AB);
    assert e[8] == 1 && (version >= 3 ==> e[9] == 0);
    EnumBytes(s, p + 4, version, AB);
  }

  lemma EntryRead(s: seq<byte>, p: nat, version: nat)
    requires version <= 4 && At(s, p, Enums(version))
    ensures EntryItem(s, version, AB)(0, if version <= 2 then p + 9 else p + 10)
         == Ok((if version == 4 then 72057594037927943 else 0, [66]), p + |Enums(version)|)
  {
    hide UintAt, RefAt, EnumAt, EntryItem, Repeat, At, Tabulate;
    var e := Enums(version);
    StandsAt(s, p, e);
    var k := |e| - 4;
    assert e[k] == 1 && e[k + 1] == 0 && e[k + 2] == 0 && e[k + 3] == 0;
    RefBytes(s, p + k, AB);
    if version == 4 {
      assert e[10] == 7 && e[11] == 0 && e[12] == 0 && e[13] == 0;
      assert e[14] == 0 && e[15] == 0 && e[16] == 0 && e[17] == 1;
    }
    EntryBytes(s, 0, if version <= 2 then p + 9 else p + 10, version, AB);
  }

  lemma OneEntry(v: nat)
    ensures Tabulate([(v, [66])], map[]) == map[v := [66]]
  {
    assert [(v, [66])][1..] == [];
  }

  lemma StructsRead(s: seq<byte>, p: nat, version: nat)
    requires At(s, p, STRUCT_HEAD + PROPERTY)
    ensures CountedAt(s, p, 4, MAX_STRUCTS, StructItem(s, AB)) == Ok(TablesOf(version).structs, p + 35)
  {
    hide UintAt, RefAt, StructAt, PropertyItem, CountedAt, At, TypeAt;
    AtConcat(s, p, STRUCT_HEAD, PROPERTY);
    StandsAt(s, p, STRUCT_HEAD);
    var e := STRUCT_HEAD;
    assert e[0] == 1 && e[1] == 0 && e[2] == 0 && e[3] == 0 && e[4] == 0 && e[5] == 0 && e[6] == 0 && e[7] == 0;
    assert e[8] == 255 && e[9] == 255 && e[10] == 255 && e[11] == 255 && e[14] == 1 && e[15] == 0;
    FieldBytes(s, p);
    RefBytes(s, p + 4, AB);
    RefBytes(s, p + 8, AB);
    StructBytes(s, p + 4, AB);
    PropertyRead(s, p + 16);
    OneRepeated(PropertyItem(s, AB), p + 16, TablesOf(version).structs[0].properties[0], p + 35);
    OneElement(s, p, 4, MAX_STRUCTS, StructItem(s, AB), TablesOf(version).structs[0], p + 35);
  }

  lemma PropertyRead(s: seq<byte>, p: nat)
    requires At(s, p, PROPERTY)
    ensures PropertyItem(s, AB)(0, p) == Ok(TablesOf(0).structs[0].properties[0], p + 19)
  {
    hide UintAt, RefAt, At, TypeAt, PropertyItem;
    StandsAt(s, p, PROPERTY);
    var e := PROPERTY;
    assert e[0] == 2 && e[1] == 1 && e[2] == 5 && e[3] == 1 && e[4] == 0 && e[5] == 0 && e[6] == 0 && e[7] == 24;
    assert e[8] == 26 && e[9] == 0 && e[10] == 0 && e[11] == 0 && e[12] == 0 && e[13] == 0;
    assert e[14] == 9 && e[15] == 1 && e[16] == 0 && e[17] == 0 && e[18] == 0;
    RefBytes(s, p + 3, AB);
    TypeBytes(s, p + 9, AB, 2);
    RefBytes(s, p + 10, AB);
    TypeBytes(s, p + 8, AB, 1);
    RefBytes(s, p + 15, AB);
    TypeBytes(s, p + 14, AB, 1);
    TypeBytes(s, p + 7, AB, 0);
    PropertyBytes(s, p, AB);
  }

  lemma BodyRead(s: seq<byte>, version: nat)
    requires version <= 4 && s == Body(version)
    ensures BodyAt(s, 0, version).Ok? && BodyAt(s, 0, version).value == TablesOf(version)
  {
    hide CountedAt, Names, Enums, At;
    var a, b := |Names(version)|, |Enums(version)|;
    Whole(s);
    AtConcat(s, 0, Names(version), Enums(version) + (STRUCT_HEAD + PROPERTY));
    AtConcat(s, a, Enums(version), STRUCT_HEAD + PROPERTY);
    NamesRead(s, 0, version);
    EnumsRead(s, a, version);
    StructsRead(s, a + b, version);
  }

  lemma Whole(s: seq<byte>)
    ensures At(s, 0, s)
  {
  }

  function BodySize(version: nat): byte
  {
    if version <= 1 then 56 else if version == 2 then 58 else if version == 3 then 59 else 67
  }

  /** A head of the given bytes, method 0, both sizes, and the body. */
  function ImageOf(head: seq<byte>, version: nat): seq<byte>
  {
    head + ([0, BodySize(version), 0, 0, 0, BodySize(version), 0, 0, 0] + Body(version))
  }

  lemma ImageRead(zstd: Codec, head: seq<byte>, version: nat)
    requires version <= 4 && |head| >= 3 && head[0] == 196 && head[1] == 48 && head[2] == version
    requires if version == 0 then |head| == 3
             else if |head| >= 7 && U32(head, 3) == 0 then |head| == 7
             else |head| >= 19 && U32(head, 15) <= 2_000_000 && |head| == 23 + 20 * U32(head, 15)
    ensures ParseFile(zstd, ImageOf(head, version)) == Success(Mappings(version, 0, TablesOf(version)))
  {
    hide HeaderAt, BodyAt, Body, TablesOf;
    var s, p := ImageOf(head, version), |head|;
    BodyRead(Body(version), version);
    BodyLength(version);
    assert s[p] == 0 && U32(s, p + 1) == BodySize(version) as nat == U32(s, p + 5);
    assert s[p + 9..p + 9 + |Body(version)|] == Body(version);
    HeaderBytes(s, p);
  }

  lemma BodyLength(version: nat)
    requires version <= 4
    ensures |Body(version)| == BodySize(version) as nat
  {
  }

  /** One image of each version: from version 1 on four flag bytes follow the version, here all 0. */
  lemma ImagesRead(zstd: Codec)
    ensures ParseFile(zstd, ImageOf([196, 48, 0], 0)) == Success(Mappings(0, 0, TablesOf(0)))
    ensures ParseFile(zstd, ImageOf([196, 48, 1, 0, 0, 0, 0], 1)) == Success(Mappings(1, 0, TablesOf(1)))
    ensures ParseFile(zstd, ImageOf([196, 48, 2, 0, 0, 0, 0], 2)) == Success(Mappings(2, 0, TablesOf(2)))
    ensures ParseFile(zstd, ImageOf([196, 48, 3, 0, 0, 0, 0], 3)) == Success(Mappings(3, 0, TablesOf(3)))
    ensures ParseFile(zstd, ImageOf([196, 48, 4, 0, 0, 0, 0], 4)) == Success(Mappings(4, 0, TablesOf(4)))
  {
    hide ParseFile, ImageOf, TablesOf;
    ImageRead(zstd, [196, 48, 0], 0);
    ImageRead(zstd, [196, 48, 1, 0, 0, 0, 0], 1);
    ImageRead(zstd, [196, 48, 2, 0, 0, 0, 0], 2);
    ImageRead(zstd, [196, 48, 3, 0, 0, 0, 0], 3);
    ImageRead(zstd, [196, 48, 4, 0, 0, 0, 0], 4);
  }

  /** A versioning block of any content between flag and method is passed over. */
  lemma BlockedImageRead(zstd: Codec, engine: seq<byte>, custom: seq<byte>, netCL: seq<byte>)
    requires |engine| == 8 && |custom| == 20 && |netCL| == 4
    ensures var head := [196, 48, 1, 1, 0, 0, 0] + engine + [1, 0, 0, 0] + custom + netCL;
            ParseFile(zstd, ImageOf(head, 1)) == Success(Mappings(1, 0, TablesOf(1)))
  {
    hide ParseFile, ImageOf, TablesOf;
    ImageRead(zstd, [196, 48, 1, 1, 0, 0, 0] + engine + [1, 0, 0, 0] + custom + netCL, 1);
  }
}
