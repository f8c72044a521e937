/**
 The parser inverts the layout, and accepts nothing else: a position parses to a value exactly
 when some well-formed table is written there and the value is its meaning.
 */
module UsmapTheorems {
  import opened Common
  import opened Bytes
  import opened Cursors
  import opened Usmap

  // ---------------------------------------------------------------- name references

  lemma RefReads(s: seq<byte>, p: nat, names: seq<Name>, idx: int)
    requires NameOk(idx, |names|) && |names| <= MAX_NAMES
    requires At(s, p, EncName(idx))
    ensures RefAt(s, p, names) == Ok(NameAt(names, idx), p + 4) && |EncName(idx)| == 4
  {
    IntAtIff(s, p, 4, idx);
  }

  lemma RefExplains(s: seq<byte>, p: nat, names: seq<Name>) returns (idx: int)
    requires RefAt(s, p, names).Ok? && |names| <= MAX_NAMES
    ensures NameOk(idx, |names|) && At(s, p, EncName(idx)) && |EncName(idx)| == 4
    ensures RefAt(s, p, names) == Ok(NameAt(names, idx), p + 4)
  {
    SignedRange(UintAt(s, p, 4).value, 4);
    idx := IntAt(s, p, 4).value;
    IntAtIff(s, p, 4, idx);
  }

  // ---------------------------------------------------------------- property types

  lemma FirstByte(s: seq<byte>, p: nat, b: byte)
    requires p + 1 <= |s|
    ensures UintAt(s, p, 1) == Ok(b as nat, p + 1) <==> At(s, p, [b])
  {
    assert s[p..p + 1] == [s[p]];
    assert FromLE([s[p]]) == s[p] + 256 * FromLE([]) by { assert [s[p]][1..] == []; }
  }

  lemma TagIff(s: seq<byte>, p: nat, t: RawType)
    ensures At(s, p, EncType(t))
       <==> p + 1 <= |s| && UintAt(s, p, 1) == Ok(Tag(t) as nat, p + 1) && At(s, p + 1, EncOperands(t))
  {
    AtConcat(s, p, [Tag(t)], EncOperands(t));
    if p + 1 <= |s| {
      FirstByte(s, p, Tag(t));
    }
  }

  /** Whatever follows, a well-formed type within the nesting guard is read back as its meaning. */
  lemma {:induction false} TypeReads(s: seq<byte>, p: nat, names: seq<Name>, depth: nat, t: RawType)
    requires |names| <= MAX_NAMES
    requires TypeOk(t, |names|) && Nest(t) + depth <= MAX_NEST_DEPTH
    requires At(s, p, EncType(t))
    ensures TypeAt(s, p, names, depth) == Ok(DenType(t, names), p + |EncType(t)|)
    decreases t, 1
  {
    hide At, OperandsAt;
    TagIff(s, p, t);
    OperandsRead(s, p + 1, names, depth, t);
  }

  lemma {:induction false} OperandsRead(s: seq<byte>, q: nat, names: seq<Name>, depth: nat, t: RawType)
    requires |names| <= MAX_NAMES
    requires TypeOk(t, |names|) && Nest(t) + depth <= MAX_NEST_DEPTH
    requires At(s, q, EncOperands(t))
    ensures OperandsAt(s, q, Tag(t), names, depth) == Ok(DenType(t, names), q + |EncOperands(t)|)
    decreases t, 0
  {
    hide At, TypeAt, RefAt, EncName, EncType;
    match t
    case Leaf(_) =>
    case StructRef(name) =>
      RefReads(s, q, names, name);
    case EnumOf(inner, name) =>
      AtConcat(s, q, EncType(inner), EncName(name));
      TypeReads(s, q, names, depth + 1, inner);
      RefReads(s, q + |EncType(inner)|, names, name);
    case Wrap(_, inner) =>
      TypeReads(s, q, names, depth + 1, inner);
    case MapOf(k, v) =>
      AtConcat(s, q, EncType(k), EncType(v));
      TypeReads(s, q, names, depth + 1, k);
      TypeReads(s, q + |EncType(k)|, names, depth + 1, v);
  }

  /** Whatever is accepted as a type is the layout of a well-formed one within the nesting guard. */
  lemma {:induction false} TypeExplains(s: seq<byte>, p: nat, names: seq<Name>, depth: nat) returns (t: RawType)
    requires TypeAt(s, p, names, depth).Ok? && |names| <= MAX_NAMES && p <= |s|
    ensures TypeOk(t, |names|) && Nest(t) + depth <= MAX_NEST_DEPTH
    ensures At(s, p, EncType(t))
    ensures TypeAt(s, p, names, depth) == Ok(DenType(t, names), p + |EncType(t)|)
    decreases |s| - p, 1
  {
    hide At, OperandsAt;
    t := OperandsExplain(s, p + 1, UintAt(s, p, 1).value, names, depth);
    TagIff(s, p, t);
  }

  lemma {:induction false} OperandsExplain(s: seq<byte>, q: nat, tag: byte, names: seq<Name>, depth: nat)
    returns (t: RawType)
    requires q <= |s| && OperandsAt(s, q, tag, names, depth).Ok? && |names| <= MAX_NAMES && depth <= MAX_NEST_DEPTH
    ensures Tag(t) == tag && TypeOk(t, |names|) && Nest(t) + depth <= MAX_NEST_DEPTH
    ensures At(s, q, EncOperands(t))
    ensures OperandsAt(s, q, tag, names, depth) == Ok(DenType(t, names), q + |EncOperands(t)|)
    decreases |s| - q, 2
  {
    hide At, TypeAt, RefAt, EncName, EncType;
    if tag == PT_ENUM {
      var inner := TypeExplains(s, q, names, depth + 1);
      var name := RefExplains(s, q + |EncType(inner)|, names);
      t := EnumOf(inner, name);
      AtConcat(s, q, EncType(inner), EncName(name));
    } else if tag == PT_STRUCT {
      var name := RefExplains(s, q, names);
      t := StructRef(name);
    } else if IsWrap(tag) {
      var inner := TypeExplains(s, q, names, depth + 1);
      t := Wrap(tag, inner);
    } else if tag == PT_MAP {
      var k := TypeExplains(s, q, names, depth + 1);
      var v := TypeExplains(s, q + |EncType(k)|, names, depth + 1);
      t := MapOf(k, v);
      AtConcat(s, q, EncType(k), EncType(v));
    } else {
      t := Leaf(tag);
      AtNothing(s, q);
    }
  }

  /** A decoded type has no more nodes than bytes were consumed for it. */
  lemma {:induction false} NodesWithinBytes(s: seq<byte>, p: nat, names: seq<Name>, depth: nat)
    requires TypeAt(s, p, names, depth).Ok?
    ensures var r := TypeAt(s, p, names, depth); Nodes(r.value) <= r.pos - p
    decreases if p <= |s| then |s| - p else 0, 1
  {
    OperandNodes(s, p + 1, UintAt(s, p, 1).value, names, depth);
  }

  lemma {:induction false} OperandNodes(s: seq<byte>, q: nat, tag: byte, names: seq<Name>, depth: nat)
    requires q <= |s| && OperandsAt(s, q, tag, names, depth).Ok?
    ensures var r := OperandsAt(s, q, tag, names, depth); Nodes(r.value) <= 1 + r.pos - q
    decreases |s| - q, 2
  {
    hide TypeAt, RefAt;
    if tag == PT_ENUM || IsWrap(tag) || tag == PT_MAP {
      NodesWithinBytes(s, q, names, depth + 1);
    }
    if tag == PT_MAP {
      NodesWithinBytes(s, TypeAt(s, q, names, depth + 1).pos, names, depth + 1);
    }
  }

  /** One level too deep is rejected whatever it nests, although its layout is there to be read. */
  lemma {:induction false} TooDeepRejected(s: seq<byte>, p: nat, names: seq<Name>, depth: nat, t: RawType)
    requires |names| <= MAX_NAMES && depth <= MAX_NEST_DEPTH + 1
    requires TypeOk(t, |names|) && Nest(t) + depth > MAX_NEST_DEPTH
    requires At(s, p, EncType(t))
    ensures TypeAt(s, p, names, depth) == Bad(TooDeep)
    decreases t
  {
    hide At, RefAt, UintAt, EncName, NameAt, Pow256;
    if depth <= MAX_NEST_DEPTH {
      TagIff(s, p, t);
      match t
      case EnumOf(inner, name) =>
        AtConcat(s, p + 1, EncType(inner), EncName(name));
        TooDeepRejected(s, p + 1, names, depth + 1, inner);
      case Wrap(_, inner) =>
        TooDeepRejected(s, p + 1, names, depth + 1, inner);
      case MapOf(k, v) =>
        AtConcat(s, p + 1, EncType(k), EncType(v));
        if Nest(k) + depth + 1 > MAX_NEST_DEPTH {
          TooDeepRejected(s, p + 1, names, depth + 1, k);
        } else {
          TypeReads(s, p + 1, names, depth + 1, k);
          TooDeepRejected(s, p + 1 + |EncType(k)|, names, depth + 1, v);
        }
    }
  }

  // ---------------------------------------------------------------- list elements

  lemma StringsRead(s: seq<byte>, version: nat)
    ensures Reads(s, StringItem(s, version), EncString(version), DenString(), NameLegal(version))
  {
    forall k: nat, p: nat, n: Name | NameLegal(version)(k, n) && At(s, p, EncString(version)(n))
      ensures StringItem(s, version)(k, p) == Ok(DenString()(n), p + |EncString(version)(n)|)
    {
      var w := NameWidth(version);
      AtConcat(s, p, ToLE(|n|, w), n);
      UintAtIff(s, p, w, |n|);
    }
  }

  lemma StringsExplained(s: seq<byte>, version: nat)
    ensures Explains(s, StringItem(s, version), EncString(version), DenString(), NameLegal(version))
  {
    forall k: nat, p: nat | StringItem(s, version)(k, p).Ok?
      ensures exists n: Name :: NameLegal(version)(k, n) && At(s, p, EncString(version)(n))
                && StringItem(s, version)(k, p) == Ok(DenString()(n), p + |EncString(version)(n)|)
    {
      var w := NameWidth(version);
      var n := StringAt(s, p, version).value;
      UintAtIff(s, p, w, |n|);
      AtConcat(s, p, ToLE(|n|, w), n);
      assert NameLegal(version)(k, n);
      assert At(s, p, EncString(version)(n));
    }
  }

  lemma EntriesRead(s: seq<byte>, version: nat, names: seq<Name>)
    requires |names| <= MAX_NAMES
    ensures Reads(s, EntryItem(s, version, names), EncEntry(version), DenEntry(names), EntryLegal(version, |names|))
  {
    forall k: nat, p: nat, e: RawEntry | EntryLegal(version, |names|)(k, e) && At(s, p, EncEntry(version)(e))
      ensures EntryItem(s, version, names)(k, p) == Ok(DenEntry(names)(e), p + |EncEntry(version)(e)|)
    {
      if version >= VER_EXPLICIT_ENUMS {
        AtConcat(s, p, ToLE(e.value, 8), EncName(e.name));
        UintAtIff(s, p, 8, e.value);
        RefReads(s, p + 8, names, e.name);
      } else {
        RefReads(s, p, names, e.name);
      }
    }
  }

  lemma EntriesExplained(s: seq<byte>, version: nat, names: seq<Name>)
    requires |names| <= MAX_NAMES
    ensures Explains(s, EntryItem(s, version, names), EncEntry(version), DenEntry(names), EntryLegal(version, |names|))
  {
    forall k: nat, p: nat | EntryItem(s, version, names)(k, p).Ok?
      ensures exists e: RawEntry :: EntryLegal(version, |names|)(k, e) && At(s, p, EncEntry(version)(e))
                && EntryItem(s, version, names)(k, p) == Ok(DenEntry(names)(e), p + |EncEntry(version)(e)|)
    {
      var e;
      if version >= VER_EXPLICIT_ENUMS {
        var value := UintAt(s, p, 8).value;
        var name := RefExplains(s, p + 8, names);
        UintAtIff(s, p, 8, value);
        AtConcat(s, p, ToLE(value, 8), EncName(name));
        e := RawEntry(value, name);
      } else {
        var name := RefExplains(s, p, names);
        e := RawEntry(k, name);
      }
      assert EntryLegal(version, |names|)(k, e);
      assert At(s, p, EncEntry(version)(e));
    }
  }

  lemma EnumReads(s: seq<byte>, p: nat, version: nat, names: seq<Name>, e: RawEnum)
    requires |names| <= MAX_NAMES && EnumOk(e, version, |names|) && At(s, p, EncEnum(version)(e))
    ensures EnumAt(s, p, version, names) == Ok(DenEnum(names)(e), p + |EncEnum(version)(e)|)
  {
    hide At, RefAt, EncName, CountedAt, EncCounted;
    var w := EntryCountWidth(version);
    AtConcat(s, p, EncName(e.name), EncCounted(w, EncEntry(version), e.entries));
    RefReads(s, p, names, e.name);
    EntriesRead(s, version, names);
    CountedReads(s, EntryItem(s, version, names), EncEntry(version), DenEntry(names), EntryLegal(version, |names|),
                 p + 4, w, MAX_ENUM_VALS, e.entries);
  }

  lemma EnumExplains(s: seq<byte>, p: nat, version: nat, names: seq<Name>) returns (e: RawEnum)
    requires |names| <= MAX_NAMES && EnumAt(s, p, version, names).Ok?
    ensures EnumOk(e, version, |names|) && At(s, p, EncEnum(version)(e))
    ensures EnumAt(s, p, version, names) == Ok(DenEnum(names)(e), p + |EncEnum(version)(e)|)
  {
    hide At, RefAt, EncName, CountedAt, EncCounted;
    var w := EntryCountWidth(version);
    var name := RefExplains(s, p, names);
    EntriesExplained(s, version, names);
    var entries := CountedExplains(s, EntryItem(s, version, names), EncEntry(version), DenEntry(names),
                                   EntryLegal(version, |names|), p + 4, w, MAX_ENUM_VALS);
    e := RawEnum(name, entries);
    AtConcat(s, p, EncName(name), EncCounted(w, EncEntry(version), entries));
  }

  lemma EnumsRead(s: seq<byte>, version: nat, names: seq<Name>)
    requires |names| <= MAX_NAMES
    ensures Reads(s, EnumItem(s, version, names), EncEnum(version), DenEnum(names), EnumLegal(version, |names|))
  {
    forall k: nat, p: nat, e: RawEnum | EnumLegal(version, |names|)(k, e) && At(s, p, EncEnum(version)(e))
      ensures EnumItem(s, version, names)(k, p) == Ok(DenEnum(names)(e), p + |EncEnum(version)(e)|)
    {
      EnumReads(s, p, version, names, e);
    }
  }

  lemma EnumsExplained(s: seq<byte>, version: nat, names: seq<Name>)
    requires |names| <= MAX_NAMES
    ensures Explains(s, EnumItem(s, version, names), EncEnum(version), DenEnum(names), EnumLegal(version, |names|))
  {
    forall k: nat, p: nat | EnumItem(s, version, names)(k, p).Ok?
      ensures exists e: RawEnum :: EnumLegal(version, |names|)(k, e) && At(s, p, EncEnum(version)(e))
                && EnumItem(s, version, names)(k, p) == Ok(DenEnum(names)(e), p + |EncEnum(version)(e)|)
    {
      var e := EnumExplains(s, p, version, names);
      assert EnumLegal(version, |names|)(k, e);
    }
  }

  lemma PropertyReads(s: seq<byte>, p: nat, names: seq<Name>, x: RawProperty)
    requires |names| <= MAX_NAMES && PropertyOk(x, |names|) && At(s, p, EncProperty()(x))
    ensures PropertyAt(s, p, names) == Ok(DenProperty(names)(x), p + |EncProperty()(x)|)
  {
    hide At, TypeAt, EncType, RefAt, EncName, UintAt, ToLE;
    AtConcat(s, p, ToLE(x.index, 2), ToLE(x.arrayDim, 1) + (EncName(x.name) + EncType(x.ty)));
    AtConcat(s, p + 2, ToLE(x.arrayDim, 1), EncName(x.name) + EncType(x.ty));
    AtConcat(s, p + 3, EncName(x.name), EncType(x.ty));
    UintAtIff(s, p, 2, x.index);
    UintAtIff(s, p + 2, 1, x.arrayDim);
    RefReads(s, p + 3, names, x.name);
    TypeReads(s, p + 7, names, 0, x.ty);
  }

  lemma PropertiesRead(s: seq<byte>, names: seq<Name>)
    requires |names| <= MAX_NAMES
    ensures Reads(s, PropertyItem(s, names), EncProperty(), DenProperty(names), PropertyLegal(|names|))
  {
    hide At, PropertyAt, PropertyOk;
    forall k: nat, p: nat, x: RawProperty | PropertyLegal(|names|)(k, x) && At(s, p, EncProperty()(x))
      ensures PropertyItem(s, names)(k, p) == Ok(DenProperty(names)(x), p + |EncProperty()(x)|)
    {
      PropertyReads(s, p, names, x);
    }
  }

  lemma PropertyExplains(s: seq<byte>, p: nat, names: seq<Name>) returns (x: RawProperty)
    requires |names| <= MAX_NAMES && PropertyAt(s, p, names).Ok?
    ensures PropertyOk(x, |names|) && At(s, p, EncProperty()(x))
    ensures PropertyAt(s, p, names) == Ok(DenProperty(names)(x), p + |EncProperty()(x)|)
  {
    hide At, TypeAt, EncType, RefAt, EncName;
    var index := UintAt(s, p, 2).value;
    var dim := UintAt(s, p + 2, 1).value;
    var name := RefExplains(s, p + 3, names);
    var ty := TypeExplains(s, p + 7, names, 0);
    x := RawProperty(index, dim, name, ty);
    UintAtIff(s, p, 2, index);
    UintAtIff(s, p + 2, 1, dim);
    AtConcat(s, p + 3, EncName(name), EncType(ty));
    AtConcat(s, p + 2, ToLE(dim, 1), EncName(name) + EncType(ty));
    AtConcat(s, p, ToLE(index, 2), ToLE(dim, 1) + (EncName(name) + EncType(ty)));
  }

  lemma PropertiesExplained(s: seq<byte>, names: seq<Name>)
    requires |names| <= MAX_NAMES
    ensures Explains(s, PropertyItem(s, names), EncProperty(), DenProperty(names), PropertyLegal(|names|))
  {
    forall k: nat, p: nat | PropertyItem(s, names)(k, p).Ok?
      ensures exists x: RawProperty :: PropertyLegal(|names|)(k, x) && At(s, p, EncProperty()(x))
                && PropertyItem(s, names)(k, p) == Ok(DenProperty(names)(x), p + |EncProperty()(x)|)
    {
      var x := PropertyExplains(s, p, names);
      assert PropertyLegal(|names|)(k, x);
    }
  }

  lemma StructReads(s: seq<byte>, p: nat, names: seq<Name>, x: RawStruct)
    requires |names| <= MAX_NAMES && StructOk(x, |names|) && At(s, p, EncStruct()(x))
    ensures StructAt(s, p, names) == Ok(DenStruct(names)(x), p + |EncStruct()(x)|)
  {
    hide At, RefAt, EncName, CountedAt, EncCounted;
    var list := EncCounted(2, EncProperty(), x.properties);
    AtConcat(s, p, EncName(x.name), EncName(x.superType) + (ToLE(x.slots, 2) + list));
    RefReads(s, p, names, x.name);
    AtConcat(s, p + 4, EncName(x.superType), ToLE(x.slots, 2) + list);
    RefReads(s, p + 4, names, x.superType);
    AtConcat(s, p + 8, ToLE(x.slots, 2), list);
    UintAtIff(s, p + 8, 2, x.slots);
    PropertiesRead(s, names);
    CountedReads(s, PropertyItem(s, names), EncProperty(), DenProperty(names), PropertyLegal(|names|),
                 p + 10, 2, MAX_PROPS, x.properties);
  }

  lemma StructExplains(s: seq<byte>, p: nat, names: seq<Name>) returns (x: RawStruct)
    requires |names| <= MAX_NAMES && StructAt(s, p, names).Ok?
    ensures StructOk(x, |names|) && At(s, p, EncStruct()(x))
    ensures StructAt(s, p, names) == Ok(DenStruct(names)(x), p + |EncStruct()(x)|)
  {
    hide At, RefAt, EncName, CountedAt, EncCounted;
    var name := RefExplains(s, p, names);
    var sup := RefExplains(s, p + 4, names);
    var slots := UintAt(s, p + 8, 2).value;
    UintAtIff(s, p + 8, 2, slots);
    PropertiesExplained(s, names);
    var props := CountedExplains(s, PropertyItem(s, names), EncProperty(), DenProperty(names), PropertyLegal(|names|),
                                 p + 10, 2, MAX_PROPS);
    x := RawStruct(name, sup, slots, props);
    StructLayout(s, p, x);
  }

  lemma StructLayout(s: seq<byte>, p: nat, x: RawStruct)
    requires |EncName(x.name)| == 4 && |EncName(x.superType)| == 4
    requires At(s, p, EncName(x.name)) && At(s, p + 4, EncName(x.superType)) && At(s, p + 8, ToLE(x.slots, 2))
    requires At(s, p + 10, EncCounted(2, EncProperty(), x.properties))
    ensures At(s, p, EncStruct()(x))
  {
    hide At;
    var list := EncCounted(2, EncProperty(), x.properties);
    AtConcat(s, p + 8, ToLE(x.slots, 2), list);
    AtConcat(s, p + 4, EncName(x.superType), ToLE(x.slots, 2) + list);
    AtConcat(s, p, EncName(x.name), EncName(x.superType) + (ToLE(x.slots, 2) + list));
  }

  lemma StructsRead(s: seq<byte>, names: seq<Name>)
    requires |names| <= MAX_NAMES
    ensures Reads(s, StructItem(s, names), EncStruct(), DenStruct(names), StructLegal(|names|))
  {
    forall k: nat, p: nat, x: RawStruct | StructLegal(|names|)(k, x) && At(s, p, EncStruct()(x))
      ensures StructItem(s, names)(k, p) == Ok(DenStruct(names)(x), p + |EncStruct()(x)|)
    {
      StructReads(s, p, names, x);
    }
  }

  lemma StructsExplained(s: seq<byte>, names: seq<Name>)
    requires |names| <= MAX_NAMES
    ensures Explains(s, StructItem(s, names), EncStruct(), DenStruct(names), StructLegal(|names|))
  {
    forall k: nat, p: nat | StructItem(s, names)(k, p).Ok?
      ensures exists x: RawStruct :: StructLegal(|names|)(k, x) && At(s, p, EncStruct()(x))
                && StructItem(s, names)(k, p) == Ok(DenStruct(names)(x), p + |EncStruct()(x)|)
    {
      var x := StructExplains(s, p, names);
      assert StructLegal(|names|)(k, x);
    }
  }

  // ---------------------------------------------------------------- the body

  lemma DenStrings(names: seq<Name>)
    ensures Map(DenString(), names) == names
  {
  }

  /** The three tables parse to their meaning and the cursor stops at their end, whatever follows. */
  lemma BodyReads(s: seq<byte>, p: nat, version: nat, t: RawTables)
    requires TablesOk(t, version)
    requires At(s, p, EncTables(t, version))
    ensures BodyAt(s, p, version) == Ok(DenTables(t), p + |EncTables(t, version)|)
  {
    hide At, CountedAt, EncCounted;
    var n1 := EncCounted(4, EncString(version), t.names);
    var n2 := EncCounted(4, EncEnum(version), t.enums);
    var n3 := EncCounted(4, EncStruct(), t.structs);
    AtConcat(s, p, n1, n2 + n3);
    AtConcat(s, p + |n1|, n2, n3);
    StringsRead(s, version);
    CountedReads(s, StringItem(s, version), EncString(version), DenString(), NameLegal(version),
                 p, 4, MAX_NAMES, t.names);
    DenStrings(t.names);
    EnumsRead(s, version, t.names);
    CountedReads(s, EnumItem(s, version, t.names), EncEnum(version), DenEnum(t.names), EnumLegal(version, |t.names|),
                 p + |n1|, 4, MAX_ENUMS, t.enums);
    StructsRead(s, t.names);
    CountedReads(s, StructItem(s, t.names), EncStruct(), DenStruct(t.names), StructLegal(|t.names|),
                 p + |n1| + |n2|, 4, MAX_STRUCTS, t.structs);
  }

  /** Every accepted body is the layout of well-formed tables. */
  lemma BodyExplains(s: seq<byte>, p: nat, version: nat) returns (t: RawTables)
    requires BodyAt(s, p, version).Ok?
    ensures TablesOk(t, version) && At(s, p, EncTables(t, version))
    ensures BodyAt(s, p, version) == Ok(DenTables(t), p + |EncTables(t, version)|)
  {
    hide At, CountedAt, EncCounted;
    StringsExplained(s, version);
    var names := CountedExplains(s, StringItem(s, version), EncString(version), DenString(), NameLegal(version),
                                 p, 4, MAX_NAMES);
    DenStrings(names);
    var n1 := EncCounted(4, EncString(version), names);
    EnumsExplained(s, version, names);
    var enums := CountedExplains(s, EnumItem(s, version, names), EncEnum(version), DenEnum(names),
                                 EnumLegal(version, |names|), p + |n1|, 4, MAX_ENUMS);
    var n2 := EncCounted(4, EncEnum(version), enums);
    StructsExplained(s, names);
    var structs := CountedExplains(s, StructItem(s, names), EncStruct(), DenStruct(names), StructLegal(|names|),
                                   p + |n1| + |n2|, 4, MAX_STRUCTS);
    var n3 := EncCounted(4, EncStruct(), structs);
    t := RawTables(names, enums, structs);
    AtConcat(s, p + |n1|, n2, n3);
    AtConcat(s, p, n1, n2 + n3);
  }

  // ---------------------------------------------------------------- whole files

  /** An uncompressed file: slack may follow the tables inside the body, and a trailer after it. */
  datatype RawFile =
    RawFile(version: nat, flag: nat, block: Option<RawVersioning>, tables: RawTables, slack: seq<byte>,
            trailer: seq<byte>)

  function BodyOf(f: RawFile): seq<byte>
  {
    EncTables(f.tables, f.version) + f.slack
  }

  ghost predicate FileOk(f: RawFile)
  {
    && f.version <= VER_LATEST
    && VersioningFits(f)
    && TablesOk(f.tables, f.version)
    && |BodyOf(f)| <= MAX_DECOMP_SIZE
  }

  /** A block is present exactly when the flag, which only exists from version 1 on, is not zero. */
  predicate VersioningFits(f: RawFile)
  {
    if f.version >= VER_PACKAGE_VERSION then
      && FitsUnsigned(f.flag, 4)
      && (f.block.Some? <==> f.flag != 0)
      && (f.block.Some? ==> VersioningOk(f.block.value))
    else f.flag == 0 && f.block.None?
  }

  function EncBlock(f: RawFile): seq<byte>
  {
    if f.version < VER_PACKAGE_VERSION then []
    else ToLE(f.flag, 4) + if f.block.Some? then EncVersioning(f.block.value) else []
  }

  function EncSizes(n: nat): seq<byte>
  {
    ToLE(METHOD_NONE, 1) + (ToLE(n, 4) + ToLE(n, 4))
  }

  function EncFile(f: RawFile): seq<byte>
  {
    ToLE(MAGIC, 2) + (ToLE(f.version, 1) + (EncBlock(f) + (EncSizes(|BodyOf(f)|) + (BodyOf(f) + f.trailer))))
  }

  function DenFile(f: RawFile): Mappings
  {
    Mappings(f.version, METHOD_NONE as nat, DenTables(f.tables))
  }

  lemma BlockReads(s: seq<byte>, p: nat, f: RawFile)
    requires VersioningFits(f) && p <= |s| && At(s, p, EncBlock(f))
    ensures OptionalVersioningEnd(s, p, f.version) == Ok((), p + |EncBlock(f)|)
  {
    hide At;
    if f.version >= VER_PACKAGE_VERSION {
      var tail := if f.block.Some? then EncVersioning(f.block.value) else [];
      AtConcat(s, p, ToLE(f.flag, 4), tail);
      UintAtIff(s, p, 4, f.flag);
      if f.block.Some? {
        VersioningReads(s, p + 4, f.block.value);
      }
    }
  }

  lemma VersioningReads(s: seq<byte>, p: nat, v: RawVersioning)
    requires VersioningOk(v) && At(s, p, EncVersioning(v))
    ensures VersioningEnd(s, p) == Ok((), p + |EncVersioning(v)|)
  {
    var count := |v.custom| / 20;
    AtConcat(s, p, v.engine, ToLE(count, 4) + (v.custom + v.netCL));
    AtConcat(s, p + 8, ToLE(count, 4), v.custom + v.netCL);
    AtConcat(s, p + 12, v.custom, v.netCL);
    IntAtIff(s, p + 8, 4, count);
  }

  lemma VersioningExplains(s: seq<byte>, p: nat) returns (v: RawVersioning)
    requires VersioningEnd(s, p).Ok?
    ensures VersioningOk(v) && At(s, p, EncVersioning(v))
    ensures VersioningEnd(s, p) == Ok((), p + |EncVersioning(v)|)
  {
    hide At, UintAt, ToLE;
    var count := IntAt(s, p + 8, 4).value;
    IntAtIff(s, p + 8, 4, count);
    var custom := TakeAt(s, p + 12, count * 20).value;
    v := RawVersioning(TakeAt(s, p, 8).value, custom, TakeAt(s, p + 12 + count * 20, 4).value);
    AtConcat(s, p + 12, v.custom, v.netCL);
    AtConcat(s, p + 8, ToLE(count, 4), v.custom + v.netCL);
    AtConcat(s, p, v.engine, ToLE(count, 4) + (v.custom + v.netCL));
  }

  lemma BlockExplains(s: seq<byte>, p: nat, version: nat) returns (flag: nat, block: Option<RawVersioning>)
    requires OptionalVersioningEnd(s, p, version).Ok? && p <= |s|
    ensures forall f: RawFile :: f.version == version && f.flag == flag && f.block == block ==>
              && VersioningFits(f) && At(s, p, EncBlock(f))
              && OptionalVersioningEnd(s, p, version) == Ok((), p + |EncBlock(f)|)
  {
    hide At;
    flag, block := 0, None;
    AtNothing(s, p);
    if version >= VER_PACKAGE_VERSION {
      flag := UintAt(s, p, 4).value;
      UintAtIff(s, p, 4, flag);
      AtNothing(s, p + 4);
      var tail: seq<byte> := [];
      if flag != 0 {
        var v := VersioningExplains(s, p + 4);
        block := Some(v);
        tail := EncVersioning(v);
      }
      AtConcat(s, p, ToLE(flag, 4), tail);
    }
  }

  lemma SizesIff(s: seq<byte>, p: nat, n: nat)
    requires n < Pow256(4)
    ensures At(s, p, EncSizes(n))
       <==> && UintAt(s, p, 1) == Ok(METHOD_NONE as nat, p + 1)
            && UintAt(s, p + 1, 4) == Ok(n, p + 5) && UintAt(s, p + 5, 4) == Ok(n, p + 9)
  {
    AtConcat(s, p, ToLE(METHOD_NONE, 1), ToLE(n, 4) + ToLE(n, 4));
    AtConcat(s, p + 1, ToLE(n, 4), ToLE(n, 4));
    UintAtIff(s, p, 1, METHOD_NONE as nat);
    UintAtIff(s, p + 1, 4, n);
    UintAtIff(s, p + 5, 4, n);
  }

  /** The file's fields at their offsets, written once for both directions. */
  ghost predicate LaidOut(s: seq<byte>, f: RawFile)
  {
    var p := 3 + |EncBlock(f)|;
    && At(s, 0, ToLE(MAGIC, 2)) && At(s, 2, ToLE(f.version, 1)) && At(s, 3, EncBlock(f))
    && At(s, p, EncSizes(|BodyOf(f)|)) && At(s, p + 9, BodyOf(f))
    && p + 9 + |BodyOf(f)| <= |s| && s[p + 9 + |BodyOf(f)|..] == f.trailer
  }

  lemma LaidOutIff(s: seq<byte>, f: RawFile)
    ensures LaidOut(s, f) <==> s == EncFile(f)
  {
    hide EncBlock, EncSizes, BodyOf, ToLE;
    var p := 3 + |EncBlock(f)|;
    var b := BodyOf(f);
    var w := EncSizes(|b|);
    assert EncFile(f)[..] == EncFile(f);
    WholeIff(s, EncFile(f));
    if |w| == 9 {
      AtConcat(s, 0, ToLE(MAGIC, 2), ToLE(f.version, 1) + (EncBlock(f) + (w + (b + f.trailer))));
      AtConcat(s, 2, ToLE(f.version, 1), EncBlock(f) + (w + (b + f.trailer)));
      AtConcat(s, 3, EncBlock(f), w + (b + f.trailer));
      AtConcat(s, p, w, b + f.trailer);
      AtConcat(s, p + 9, b, f.trailer);
    }
    assert |w| == 9 by { SizesLength(|b|); }
  }

  lemma SizesLength(n: nat)
    ensures |EncSizes(n)| == 9
  {
  }

  lemma WholeIff(s: seq<byte>, e: seq<byte>)
    ensures s == e <==> At(s, 0, e) && |s| == |e|
  {
  }

  /** The header of a laid-out file yields its version and its body. */
  lemma HeaderReads(s: seq<byte>, f: RawFile)
    requires FileOk(f) && LaidOut(s, f)
    ensures HeaderAt(s)
         == Ok((f.version, METHOD_NONE as nat, BodyOf(f), |BodyOf(f)|), 3 + |EncBlock(f)| + 9 + |BodyOf(f)|)
  {
    hide EncBlock, EncSizes, BodyOf, OptionalVersioningEnd, ToLE, UintAt;
    UintAtIff(s, 0, 2, MAGIC);
    UintAtIff(s, 2, 1, f.version);
    BlockReads(s, 3, f);
    SizesIff(s, 3 + |EncBlock(f)|, |BodyOf(f)|);
  }

  /** An accepted header of an uncompressed file fixes every field before and around the body. */
  lemma HeaderExplains(s: seq<byte>, f: RawFile)
    requires HeaderAt(s).Ok?
    requires var (version, scheme, comp, size) := HeaderAt(s).value;
             && scheme == METHOD_NONE as nat && |comp| == size
             && f.version == version && BodyOf(f) == comp && f.trailer == s[HeaderAt(s).pos..]
    requires At(s, 3, EncBlock(f)) && OptionalVersioningEnd(s, 3, f.version) == Ok((), 3 + |EncBlock(f)|)
    ensures LaidOut(s, f)
  {
    hide EncBlock, EncSizes, BodyOf, OptionalVersioningEnd, ToLE, UintAt, FromLE;
    UintAtIff(s, 0, 2, MAGIC);
    UintAtIff(s, 2, 1, f.version);
    SizesIff(s, 3 + |EncBlock(f)|, |BodyOf(f)|);
  }

  lemma FileReads(zstd: Codec, f: RawFile)
    requires FileOk(f)
    ensures ParseFile(zstd, EncFile(f)) == Success(DenFile(f))
  {
    hide LaidOut, HeaderAt, EncFile, EncTables, DenTables, TablesOk, BodyAt;
    var s := EncFile(f);
    LaidOutIff(s, f);
    HeaderReads(s, f);
    BodyReads(BodyOf(f), 0, f.version, f.tables);
  }

  lemma FileExplains(zstd: Codec, s: seq<byte>) returns (f: RawFile)
    requires ParseFile(zstd, s).Success? && ParseFile(zstd, s).value.scheme == METHOD_NONE as nat
    ensures FileOk(f) && s == EncFile(f) && ParseFile(zstd, s) == Success(DenFile(f))
  {
    hide LaidOut, EncFile, EncTables, DenTables, TablesOk, BodyAt, EncBlock, OptionalVersioningEnd, UintAt,
         VersioningFits, ToLE, FromLE;
    var (version, scheme, body, n) := HeaderAt(s).value;
    var flag, block := BlockExplains(s, 3, version);
    var tables := BodyExplains(body, 0, version);
    f := RawFile(version, flag, block, tables, body[|EncTables(tables, version)|..], s[HeaderAt(s).pos..]);
    assert BodyOf(f) == body;
    HeaderExplains(s, f);
    LaidOutIff(s, f);
  }

  /**
   A file is accepted as uncompressed mappings m exactly when it is the layout of a well-formed
   file whose meaning is m.
   */
  lemma AcceptsExactlyTheLayouts(zstd: Codec, s: seq<byte>, m: Mappings)
    requires m.scheme == METHOD_NONE as nat
    ensures ParseFile(zstd, s) == Success(m) <==> exists f: RawFile :: FileOk(f) && s == EncFile(f) && m == DenFile(f)
  {
    if ParseFile(zstd, s) == Success(m) {
      var f := FileExplains(zstd, s);
    }
    if f: RawFile :| FileOk(f) && s == EncFile(f) && m == DenFile(f) {
      FileReads(zstd, f);
    }
  }
}
