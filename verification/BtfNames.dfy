/**
 The round trip in terms of names. Types refer to a list of names; the writer lays the
 names out as a string table and puts offsets in their place. What the reader finds is
 then stated of the names themselves, without reading any bytes.
*/
module BtfNames {
  import opened Prelude
  import opened TaskReads
  import opened Btf
  import opened BtfRoundTrip

  /** Section 2.1: a text without a NUL inside. */
  predicate IsName(s: seq<Byte>) {
    IsUtf8(s) && 0 !in s
  }

  predicate AllNames(names: seq<seq<Byte>>) {
    forall i :: 0 <= i < |names| ==> IsName(names[i])
  }

  /** Section 2.1: the empty name first, then each name with its NUL. */
  function Table(names: seq<seq<Byte>>): seq<Byte> {
    if names == [] then [0] else Table(names[..|names| - 1]) + names[|names| - 1] + [0]
  }

  function OffsetOf(names: seq<seq<Byte>>, i: nat): nat
    requires i < |names|
  {
    |Table(names[..i])|
  }

  lemma {:induction false} TableHolds(names: seq<seq<Byte>>, i: nat)
    requires i < |names|
    ensures
      var off, name := OffsetOf(names, i), names[i];
      && off + |name| < |Table(names)|
      && Table(names)[off..off + |name|] == name && Table(names)[off + |name|] == 0
  {
    var init, last := names[..|names| - 1], names[|names| - 1];
    if i < |init| {
      TableHolds(init, i);
      assert init[..i] == names[..i];
      var off, name := OffsetOf(names, i), names[i];
      assert Table(names)[off..off + |name|] == Table(init)[off..off + |name|];
    }
  }

  /** A name's offset reads as the name, and offset zero as no name. */
  lemma {:induction false} NameReads(names: seq<seq<Byte>>, i: nat)
    requires AllNames(names) && i < |names|
    ensures TextAt(Table(names), OffsetOf(names, i)) == names[i]
  {
    assert IsName(names[i]);
    TableHolds(names, i);
    NamedTextIsRead(Table(names), OffsetOf(names, i), names[i]);
  }

  lemma NamedTextIsRead(s: seq<Byte>, off: nat, name: seq<Byte>)
    requires IsName(name) && off + |name| < |s| && s[off..off + |name|] == name && s[off + |name|] == 0
    ensures TextAt(s, off) == name
  {
    TextIsRead(s, off, name);
  }

  lemma {:induction false} StartsEmpty(names: seq<seq<Byte>>)
    ensures Table(names) != [] && Table(names)[0] == 0
  {
    if names != [] { StartsEmpty(names[..|names| - 1]); }
  }

  lemma {:induction false} NoNameReads(names: seq<seq<Byte>>)
    ensures TextAt(Table(names), 0) == []
  {
    StartsEmpty(names);
    TextIsRead(Table(names), 0, []);
  }

  // ---- putting offsets for names ----

  /** Every name a lookup may read is in the list: a type's own, and a struct's members'. */
  predicate Refers(t: Type, names: seq<seq<Byte>>) {
    && (Named(t) ==> t.name < |names|)
    && (t.StructType? ==> forall i :: 0 <= i < |t.members| ==> t.members[i].name < |names|)
  }

  /** Pointers, arrays and prototypes have no name. */
  predicate Named(t: Type) {
    !t.PtrType? && !t.ArrayType? && !t.FuncProtoType?
  }

  /** The offsets fit a word, and every type can be encoded and refers to the list. */
  predicate Laid(types: seq<Type>, names: seq<seq<Byte>>) {
    |Table(names)| < 0x1_0000_0000 && forall i :: 0 <= i < |types| ==> types[i].Encodable() && Refers(types[i], names)
  }

  function Offset(names: seq<seq<Byte>>, i: nat): Word
    requires |Table(names)| < 0x1_0000_0000
  {
    if i < |names| then (TableHolds(names, i); OffsetOf(names, i)) else 0
  }

  function PutMembers(members: seq<Triple>, names: seq<seq<Byte>>): (r: seq<Triple>)
    requires |Table(names)| < 0x1_0000_0000
    ensures |r| == |members|
  {
    seq(|members|, i requires 0 <= i < |members| => members[i].(name := Offset(names, members[i].name)))
  }

  function Put(t: Type, names: seq<seq<Byte>>): Type
    requires |Table(names)| < 0x1_0000_0000
  {
    match t
    case IntType(name, size, encoding) => IntType(Offset(names, name), size, encoding)
    case StructType(name, size, flag, members) =>
      StructType(Offset(names, name), size, flag, PutMembers(members, names))
    case UnionType(name, size, flag, members) => UnionType(Offset(names, name), size, flag, members)
    case EnumType(name, size, flag, values) => EnumType(Offset(names, name), size, flag, values)
    case TypedefType(name, target) => TypedefType(Offset(names, name), target)
    case VarType(name, target, linkage) => VarType(Offset(names, name), target, linkage)
    case DatasecType(name, size, vars) => DatasecType(Offset(names, name), size, vars)
    case DeclTagType(name, target, component) => DeclTagType(Offset(names, name), target, component)
    case Enum64Type(name, size, flag, wide) => Enum64Type(Offset(names, name), size, flag, wide)
    case BareType(kind, name, target, flag, vlen) => BareType(kind, Offset(names, name), target, flag, vlen)
    case _ => t
  }

  function PutAll(types: seq<Type>, names: seq<seq<Byte>>): (r: seq<Type>)
    requires |Table(names)| < 0x1_0000_0000
    ensures |r| == |types|
  {
    seq(|types|, i requires 0 <= i < |types| => Put(types[i], names))
  }

  lemma {:induction false} PutKeeps(t: Type, names: seq<seq<Byte>>)
    requires |Table(names)| < 0x1_0000_0000
    ensures
      var p := Put(t, names);
      && p.Kind() == t.Kind() && p.Vlen() == t.Vlen() && p.SizeOrType() == t.SizeOrType()
      && (t.StructType? <==> p.StructType?) && (t.StructType? ==> p.flag == t.flag && |p.members| == |t.members|)
  {
  }

  // ---- what the types declare, by name ----

  function NameOf(t: Type, names: seq<seq<Byte>>): seq<Byte>
    requires Refers(t, names)
  {
    if Named(t) then names[t.name] else []
  }

  /** The first type from `i` on with this kind and name. */
  function DeclaredAs(types: seq<Type>, names: seq<seq<Byte>>, kind: nat, name: seq<Byte>, i: nat): (r: Option<nat>)
    requires Laid(types, names) && i <= |types|
    ensures r.Some? ==> i <= r.value < |types| && types[r.value].Kind() == kind && NameOf(types[r.value], names) == name
    ensures r.Some? ==> forall j :: i <= j < r.value ==> types[j].Kind() != kind || NameOf(types[j], names) != name
    ensures r == None ==> forall j :: i <= j < |types| ==> types[j].Kind() != kind || NameOf(types[j], names) != name
    decreases |types| - i
  {
    if i == |types| then None
    else if types[i].Kind() == kind && NameOf(types[i], names) == name then Some(i)
    else DeclaredAs(types, names, kind, name, i + 1)
  }

  /** The first member from `i` on with this name. */
  function MemberAs(members: seq<Triple>, names: seq<seq<Byte>>, field: seq<Byte>, i: nat): (r: Option<nat>)
    requires i <= |members| && forall j :: 0 <= j < |members| ==> members[j].name < |names|
    ensures r.Some? ==> i <= r.value < |members| && names[members[r.value].name] == field
    ensures r.Some? ==> forall j :: i <= j < r.value ==> names[members[j].name] != field
    ensures r == None ==> forall j :: i <= j < |members| ==> names[members[j].name] != field
    decreases |members| - i
  {
    if i == |members| then None
    else if names[members[i].name] == field then Some(i)
    else MemberAs(members, names, field, i + 1)
  }

  function FieldOffsetAs(types: seq<Type>, names: seq<seq<Byte>>, structName: seq<Byte>, field: seq<Byte>): Result<nat>
    requires Laid(types, names)
  {
    match DeclaredAs(types, names, 4, structName, 0)
    case None => Err("struct not found in BTF")
    case Some(j) =>
      match MemberAs(types[j].members, names, field, 0)
      case None => Err("field not found")
      case Some(i) =>
        var bits := types[j].members[i].third;
        Ok((if types[j].flag then bits % 0x100_0000 else bits) / 8)
  }

  function ProtoParamsAs(types: seq<Type>, names: seq<seq<Byte>>, typedef: seq<Byte>): Result<nat>
    requires Laid(types, names)
  {
    match DeclaredAs(types, names, 8, typedef, 0)
    case None => Err("typedef not in BTF")
    case Some(td) =>
      match DeclaredReferent(types, types[td].SizeOrType(), 2)
      case Err(e) => Err(e)
      case Ok(ptr) =>
        match DeclaredReferent(types, types[ptr].SizeOrType(), 13)
        case Err(e) => Err(e)
        case Ok(proto) => Ok(types[proto].Vlen())
  }

  // ---- the two agree ----

  /** A type's offset reads as its name. */
  lemma {:induction false} PutReads(t: Type, names: seq<seq<Byte>>)
    requires AllNames(names) && |Table(names)| < 0x1_0000_0000 && Refers(t, names)
    ensures TextAt(Table(names), Put(t, names).NameOff()) == NameOf(t, names)
  {
    if Named(t) { NameReads(names, t.name); } else { NoNameReads(names); }
  }

  lemma {:induction false} DeclaredAgrees(types: seq<Type>, names: seq<seq<Byte>>, kind: nat, name: Str, i: nat)
    requires AllNames(names) && Laid(types, names) && i <= |types|
    ensures Declared(PutAll(types, names), Table(names), kind, name, i) == DeclaredAs(types, names, kind, name, i)
    decreases |types| - i
  {
    if i < |types| {
      PutKeeps(types[i], names);
      PutReads(types[i], names);
      DeclaredAgrees(types, names, kind, name, i + 1);
    }
  }

  lemma {:induction false} MembersAgree(t: Type, names: seq<seq<Byte>>, field: Str)
    requires AllNames(names) && |Table(names)| < 0x1_0000_0000 && Refers(t, names) && t.StructType?
    ensures First(DeclaredNamed(Put(t, names).members, Table(names), field), 0) == MemberAs(t.members, names, field, 0)
  {
    var flags := DeclaredNamed(Put(t, names).members, Table(names), field);
    forall i | 0 <= i < |t.members| ensures flags[i] <==> names[t.members[i].name] == field {
      MemberNameReads(t, names, i);
    }
    FirstAgrees(flags, t.members, names, field);
  }

  lemma {:induction false} MemberNameReads(t: Type, names: seq<seq<Byte>>, i: nat)
    requires AllNames(names) && |Table(names)| < 0x1_0000_0000 && Refers(t, names) && t.StructType? && i < |t.members|
    ensures Put(t, names).StructType? && |Put(t, names).members| == |t.members|
    ensures TextAt(Table(names), Put(t, names).members[i].name) == names[t.members[i].name]
  {
    NameReads(names, t.members[i].name);
  }

  lemma {:induction false} FirstAgrees(flags: seq<bool>, members: seq<Triple>, names: seq<seq<Byte>>, field: seq<Byte>)
    requires |flags| == |members| && forall j :: 0 <= j < |members| ==> members[j].name < |names|
    requires forall i :: 0 <= i < |members| ==> (flags[i] <==> names[members[i].name] == field)
    ensures First(flags, 0) == MemberAs(members, names, field, 0)
  {
  }

  lemma {:induction false} FieldOffsetAgrees(types: seq<Type>, names: seq<seq<Byte>>, structName: Str, field: Str)
    requires AllNames(names) && Laid(types, names) && AllEncodable(PutAll(types, names))
    ensures DeclaredFieldOffset(PutAll(types, names), Table(names), structName, field)
         == FieldOffsetAs(types, names, structName, field)
  {
    DeclaredAgrees(types, names, 4, structName, 0);
    var found := DeclaredAs(types, names, 4, structName, 0);
    if found.Some? {
      PutKeeps(types[found.value], names);
      MembersAgree(types[found.value], names, field);
    }
  }

  lemma ReferentAgrees(types: seq<Type>, names: seq<seq<Byte>>, id: nat, expected: nat)
    requires Laid(types, names)
    ensures DeclaredReferent(PutAll(types, names), id, expected) == DeclaredReferent(types, id, expected)
  {
    if 1 <= id <= |types| { PutKeeps(types[id - 1], names); }
  }

  lemma {:induction false} ProtoParamsAgrees(types: seq<Type>, names: seq<seq<Byte>>, typedef: Str)
    requires AllNames(names) && Laid(types, names)
    ensures DeclaredProtoParams(PutAll(types, names), Table(names), typedef) == ProtoParamsAs(types, names, typedef)
  {
    DeclaredAgrees(types, names, 8, typedef, 0);
    var found := DeclaredAs(types, names, 8, typedef, 0);
    if found.Some? {
      PutKeeps(types[found.value], names);
      ReferentAgrees(types, names, types[found.value].SizeOrType(), 2);
      var ptr := DeclaredReferent(types, types[found.value].SizeOrType(), 2);
      if ptr.Ok? {
        PutKeeps(types[ptr.value], names);
        ReferentAgrees(types, names, types[ptr.value].SizeOrType(), 13);
        var proto := DeclaredReferent(types, types[ptr.value].SizeOrType(), 13);
        if proto.Ok? { PutKeeps(types[proto.value], names); }
      }
    }
  }

  /** Everything that can be written: names, types that refer to them, and sections that fit. */
  predicate Writable(types: seq<Type>, names: seq<seq<Byte>>, layout: Layout) {
    AllNames(names) && Laid(types, names) && Fits(PutAll(types, names), Table(names), layout)
  }

  function Write(types: seq<Type>, names: seq<seq<Byte>>, le: bool, layout: Layout): seq<Byte>
    requires Writable(types, names, layout)
  {
    Serialize(PutAll(types, names), Table(names), le, layout)
  }

  /**
   Written in either byte order and any layout, any types and names read back: for
   every query the field offset and the parameter count are what the types declare of
   the names, or the error that nothing so named is declared.
  */
  lemma RoundTrip(types: seq<Type>, names: seq<seq<Byte>>, le: bool, layout: Layout, structName: Str, field: Str,
                  typedef: Str)
    requires Writable(types, names, layout)
    ensures
      var parsed := ParseHeader(Write(types, names, le, layout));
      && parsed.Ok? && |parsed.value.Offsets()| == |types| + 1
      && parsed.value.IndexedFieldOffset(structName, field) == FieldOffsetAs(types, names, structName, field)
      && parsed.value.TracepointProtoParams(typedef) == ProtoParamsAs(types, names, typedef)
  {
    ReadsBack(PutAll(types, names), Table(names), le, layout, structName, field, typedef);
    FieldOffsetAgrees(types, names, structName, field);
    ProtoParamsAgrees(types, names, typedef);
  }

  /** Member `i` of struct `j`, with no struct and no member before it of the same name. */
  predicate FirstSoNamed(types: seq<Type>, names: seq<seq<Byte>>, j: nat, i: nat)
    requires Laid(types, names)
  {
    && j < |types| && types[j].StructType? && i < |types[j].members|
    && (forall k :: 0 <= k < j && types[k].StructType? ==> names[types[k].name] != names[types[j].name])
    && (forall k :: 0 <= k < i ==> names[types[j].members[k].name] != names[types[j].members[i].name])
  }

  lemma FirstIsFound(types: seq<Type>, names: seq<seq<Byte>>, j: nat, i: nat)
    requires Laid(types, names) && FirstSoNamed(types, names, j, i)
    ensures
      var t := types[j];
      FieldOffsetAs(types, names, names[t.name], names[t.members[i].name])
      == Ok((if t.flag then t.members[i].third % 0x100_0000 else t.members[i].third) / 8)
  {
    var t := types[j];
    forall k | 0 <= k < j ensures types[k].Kind() != 4 || NameOf(types[k], names) != names[t.name] {}
    assert t.Kind() == 4 && NameOf(t, names) == names[t.name];
    assert DeclaredAs(types, names, 4, names[t.name], 0) == Some(j);
    assert MemberAs(t.members, names, names[t.members[i].name], 0) == Some(i);
  }

  /** A declared member is found by name, when no struct and no member before it has the same. */
  lemma DeclaredMemberIsFound(types: seq<Type>, names: seq<seq<Byte>>, le: bool, layout: Layout, j: nat, i: nat)
    requires Writable(types, names, layout) && FirstSoNamed(types, names, j, i)
    ensures
      var parsed, t := ParseHeader(Write(types, names, le, layout)), types[j];
      && parsed.Ok? && IsUtf8(names[t.name]) && IsUtf8(names[t.members[i].name])
      && parsed.value.IndexedFieldOffset(names[t.name], names[t.members[i].name])
         == Ok((if t.flag then t.members[i].third % 0x100_0000 else t.members[i].third) / 8)
  {
    var t := types[j];
    assert IsName(names[t.name]) && IsName(names[t.members[i].name]);
    RoundTrip(types, names, le, layout, names[t.name], names[t.members[i].name], []);
    FirstIsFound(types, names, j, i);
  }
}
