/**
 The BTF reader: byte-level, over a header nobody vouches for, in either byte
 order. Kinds, record layout and strings follow sections 2.1 and 2.2 of the Linux
 kernel's BTF specification.
*/
module Btf {
  import opened Prelude
  import opened TaskReads

  const KIND_INT := 1
  const KIND_PTR := 2
  const KIND_ARRAY := 3
  const KIND_STRUCT := 4
  const KIND_UNION := 5
  const KIND_ENUM := 6
  const KIND_TYPEDEF := 8
  const KIND_FUNC_PROTO := 13
  const KIND_VAR := 14
  const KIND_DATASEC := 15
  const KIND_DECL_TAG := 17
  const KIND_ENUM64 := 19

  const MAGIC := 0xeb9f

  /** Bytes of trailing data after the 12-byte record header. */
  function ExtraLen(kind: nat, vlen: nat): nat {
    if kind == KIND_INT || kind == KIND_VAR || kind == KIND_DECL_TAG then 4
    else if kind == KIND_ARRAY then 12
    else if kind == KIND_STRUCT || kind == KIND_UNION || kind == KIND_DATASEC || kind == KIND_ENUM64 then 12 * vlen
    else if kind == KIND_ENUM || kind == KIND_FUNC_PROTO then 8 * vlen
    else 0
  }

  // ---- text ----

  predicate Continues(s: seq<Byte>, i: nat, low: nat, high: nat) {
    i < |s| && low <= s[i] <= high
  }

  /** Length of the well-formed UTF-8 character `s` starts with; zero when it starts with none. */
  function CharLen(s: seq<Byte>): (n: nat)
    requires s != []
    ensures n <= |s|
  {
    var b := s[0];
    if b < 0x80 then 1
    else if 0xC2 <= b <= 0xDF then (if Continues(s, 1, 0x80, 0xBF) then 2 else 0)
    else if 0xE0 <= b <= 0xEF then
      var low, high := if b == 0xE0 then 0xA0 else 0x80, if b == 0xED then 0x9F else 0xBF;
      if Continues(s, 1, low, high) && Continues(s, 2, 0x80, 0xBF) then 3 else 0
    else if 0xF0 <= b <= 0xF4 then
      var low, high := if b == 0xF0 then 0x90 else 0x80, if b == 0xF4 then 0x8F else 0xBF;
      if Continues(s, 1, low, high) && Continues(s, 2, 0x80, 0xBF) && Continues(s, 3, 0x80, 0xBF) then 4 else 0
    else 0
  }

  predicate IsUtf8(s: seq<Byte>)
    decreases |s|
  {
    s == [] || (CharLen(s) > 0 && IsUtf8(s[CharLen(s)..]))
  }

  /** A `&str`. */
  type Str = s: seq<Byte> | IsUtf8(s) witness []

  /** The bytes before the first NUL, or all of them. */
  function UntilNul(s: seq<Byte>): seq<Byte> {
    if s == [] || s[0] == 0 then [] else [s[0]] + UntilNul(s[1..])
  }

  /** The string at `off`: empty when `off` is past the end or the bytes are not UTF-8. */
  function TextAt(s: seq<Byte>, off: nat): Str {
    if off > |s| then []
    else
      var text := UntilNul(s[off..]);
      if IsUtf8(text) then text else []
  }

  /** A text ended by a NUL or by the end of the data is read as it stands. */
  lemma {:induction false} TextIsRead(s: seq<Byte>, off: nat, text: seq<Byte>)
    requires off + |text| <= |s| && s[off..off + |text|] == text && 0 !in text
    requires off + |text| == |s| || s[off + |text|] == 0
    ensures TextAt(s, off) == if IsUtf8(text) then text else []
  {
    UntilNulIs(s[off..], text);
  }

  lemma {:induction false} UntilNulIs(s: seq<Byte>, text: seq<Byte>)
    requires |text| <= |s| && s[..|text|] == text && 0 !in text
    requires |text| == |s| || s[|text|] == 0
    ensures UntilNul(s) == text
  {
    if text != [] {
      assert s[0] == text[0] && text[0] in text;
      UntilNulIs(s[1..], text[1..]);
      assert text == [text[0]] + text[1..];
    }
  }

  /** Two bytes as a 16-bit value, least significant first. */
  function Half(low: Byte, high: Byte): nat {
    low + 0x100 * high
  }

  /** Four bytes in memory order, as a word. */
  function Glue(b0: Byte, b1: Byte, b2: Byte, b3: Byte, le: bool): (w: nat)
    ensures w < 0x1_0000_0000
  {
    if le then b0 + 0x100 * b1 + 0x1_0000 * b2 + 0x100_0000 * b3
    else b3 + 0x100 * b2 + 0x1_0000 * b1 + 0x100_0000 * b0
  }

  /** The first index from `i` on that is set. */
  function First(flags: seq<bool>, i: nat): (r: Option<nat>)
    requires i <= |flags|
    ensures r == None ==> forall k :: i <= k < |flags| ==> !flags[k]
    ensures r.Some? ==> i <= r.value < |flags| && flags[r.value] && forall k :: i <= k < r.value ==> !flags[k]
    decreases |flags| - i
  {
    if i == |flags| then None else if flags[i] then Some(i) else First(flags, i + 1)
  }

  // ---- the parsed header ----

  datatype Btf = Btf(data: seq<Byte>, le: bool, typeOff: nat, typeLen: nat, strOff: nat) {

    function U32(at: nat): (r: Option<nat>)
      ensures r.Some? <==> at + 4 <= |data|
      ensures r.Some? ==> r.value < 0x1_0000_0000
    {
      if at + 4 <= |data| then Some(Glue(data[at], data[at + 1], data[at + 2], data[at + 3], le)) else None
    }

    function String(nameOff: nat): Str {
      TextAt(data, strOff + nameOff)
    }

    /** The type section's end, clamped to the data. */
    function End(): nat {
      if typeOff + typeLen < |data| then typeOff + typeLen else |data|
    }

    function Info(off: nat): nat {
      U32(off + 4).GetOr(0)
    }

    function Kind(off: nat): nat {
      Info(off) / 0x100_0000 % 32
    }

    function Vlen(off: nat): nat {
      Info(off) % 0x1_0000
    }

    function Kflag(off: nat): nat {
      Info(off) / 0x8000_0000
    }

    function TypeName(off: nat): Str {
      match U32(off)
      case None => []
      case Some(n) => String(n)
    }

    function Next(off: nat): (next: nat)
      ensures next >= off + 12
    {
      off + 12 + ExtraLen(Kind(off), Vlen(off))
    }

    /** The records from `cur` on. */
    function Walk(cur: nat): seq<nat>
      decreases |data| - cur
    {
      if cur + 12 <= End() then [cur] + Walk(Next(cur)) else []
    }

    /** Record offsets by type id; id 0 is void. */
    function Offsets(): seq<nat> {
      [0] + Walk(typeOff)
    }

    /** The first of the records with this kind and name. */
    function Find(records: seq<nat>, kind: nat, name: Str): Option<nat> {
      if records == [] then None
      else if Kind(records[0]) == kind && TypeName(records[0]) == name then Some(records[0])
      else Find(records[1..], kind, name)
    }

    function FindType(offsets: seq<nat>, kind: nat, name: Str): Option<nat>
      requires offsets != []
    {
      Find(offsets[1..], kind, name)
    }

    /** Byte offset that the member word declares. */
    function MemberOffset(kflag: nat, bits: nat): nat {
      (if kflag == 1 then bits % 0x100_0000 else bits) / 8
    }

    /** Member `i` can be read and is called `field`. */
    predicate Names(off: nat, i: nat, field: Str) {
      var m := off + 12 + 12 * i;
      U32(m).Some? && U32(m + 8).Some? && String(U32(m).value) == field
    }

    /** The byte offset member `i` declares. */
    function MemberWord(off: nat, i: nat): nat {
      MemberOffset(Kflag(off), U32(off + 12 + 12 * i + 8).GetOr(0))
    }

    /** For each member, whether it can be read and is called `field`. */
    function Named(off: nat, field: Str): (flags: seq<bool>)
      ensures |flags| == Vlen(off)
    {
      seq(Vlen(off), (i: nat) => Names(off, i, field))
    }

    /** The first readable member named `field`. */
    function Member(off: nat, field: Str): Option<nat> {
      First(Named(off, field), 0)
    }

    /** The field offset, by way of the type index: find the struct, then the member. */
    function IndexedFieldOffset(structName: Str, field: Str): Result<nat> {
      match FindType(Offsets(), KIND_STRUCT, structName)
      case None => Err("struct not found in BTF")
      case Some(off) =>
        match Member(off, field)
        case None => Err("field not found")
        case Some(i) => Ok(MemberWord(off, i))
    }

    function Referent(offsets: seq<nat>, off: nat, expected: nat): Result<nat> {
      match U32(off + 8)
      case None => Err("truncated type")
      case Some(target) =>
        if target >= |offsets| || offsets[target] == 0 then Err("dangling type reference")
        else if Kind(offsets[target]) != expected then Err("unexpected BTF kind in reference chain")
        else Ok(offsets[target])
    }

    function TracepointProtoParams(typedef: Str): Result<nat> {
      var offsets := Offsets();
      match FindType(offsets, KIND_TYPEDEF, typedef)
      case None => Err("typedef not in BTF")
      case Some(td) =>
        match Referent(offsets, td, KIND_PTR)
        case Err(e) => Err(e)
        case Ok(ptr) =>
          match Referent(offsets, ptr, KIND_FUNC_PROTO)
          case Err(e) => Err(e)
          case Ok(proto) => Ok(Vlen(proto))
    }
  }

  /** What `from_bytes` accepts, and what it makes of the header. */
  function ParseHeader(data: seq<Byte>): Result<Btf> {
    if |data| < 24 then Err("too small to be valid BTF")
    else
      var little, big := Half(data[0], data[1]) == MAGIC, Half(data[1], data[0]) == MAGIC;
      if !little && !big then Err("bad BTF magic")
      else
        var raw := Btf(data, little, 0, 0, 0);
        var hdrLen := raw.U32(4).value;
        Ok(Btf(data, little, hdrLen + raw.U32(8).value, raw.U32(12).value, hdrLen + raw.U32(16).value))
  }

  /** A 64-bit index: every sum and product of two of these is checked to stay one. */
  newtype usize = x: int | 0 <= x < 0x1_0000_0000_0000_0000

  /** No vector is longer than half the address space. */
  predicate Allocatable(data: seq<Byte>) {
    |data| < 0x8000_0000_0000_0000
  }

  /** A header as `from_bytes` leaves it. */
  predicate Parsed(b: Btf) {
    Allocatable(b.data) && ParseHeader(b.data) == Ok(b)
  }

  lemma MagicIs(low: Byte, high: Byte)
    ensures Half(low, high) == MAGIC <==> low == 0x9f && high == 0xeb
  {
  }

  /** What is accepted, and in which byte order. */
  lemma HeaderIsAccepted(data: seq<Byte>)
    ensures ParseHeader(data).Ok? <==> |data| >= 24 && (data[..2] == [0x9f, 0xeb] || data[..2] == [0xeb, 0x9f])
    ensures ParseHeader(data).Ok? ==> (ParseHeader(data).value.le <==> data[..2] == [0x9f, 0xeb])
  {
    if |data| >= 24 {
      MagicIs(data[0], data[1]);
      MagicIs(data[1], data[0]);
      assert data[..2] == [data[0], data[1]];
    }
  }

  /** What is made of it. */
  lemma HeaderIsDecoded(data: seq<Byte>)
    requires ParseHeader(data).Ok?
    ensures
      var b := ParseHeader(data).value;
      && |data| >= 24 && b.data == data
      && b.typeOff == Number(data[4..8], !b.le) + Number(data[8..12], !b.le)
      && b.typeLen == Number(data[12..16], !b.le)
      && b.strOff == Number(data[4..8], !b.le) + Number(data[16..20], !b.le)
  {
    var raw := Btf(data, ParseHeader(data).value.le, 0, 0, 0);
    WordIsNumber(raw, 4);
    WordIsNumber(raw, 8);
    WordIsNumber(raw, 12);
    WordIsNumber(raw, 16);
  }

  /** At least 24 bytes and the magic, in one order or the other; offsets count from the end of the header. */
  method FromBytes(data: seq<Byte>) returns (r: Result<Btf>)
    ensures r.Ok? <==> |data| >= 24 && (data[..2] == [0x9f, 0xeb] || data[..2] == [0xeb, 0x9f])
    ensures r.Ok? ==>
              && r.value.data == data && (r.value.le <==> data[..2] == [0x9f, 0xeb])
              && r.value.typeOff == Number(data[4..8], !r.value.le) + Number(data[8..12], !r.value.le)
              && r.value.typeLen == Number(data[12..16], !r.value.le)
              && r.value.strOff == Number(data[4..8], !r.value.le) + Number(data[16..20], !r.value.le)
    ensures r == ParseHeader(data)
  {
    r := Parse(data);
    HeaderIsAccepted(data);
    if r.Ok? { HeaderIsDecoded(data); }
  }

  method Parse(data: seq<Byte>) returns (r: Result<Btf>)
    ensures r == ParseHeader(data)
  {
    if |data| < 24 { return Err("too small to be valid BTF"); }
    var le: bool;
    if Half(data[0], data[1]) == MAGIC {
      le := true;
    } else if Half(data[1], data[0]) == MAGIC {
      le := false;
    } else {
      return Err("bad BTF magic");
    }
    var btf := Btf(data, le, 0, 0, 0);
    var hdrLen := btf.U32(4).value;
    btf := btf.(typeOff := hdrLen + btf.U32(8).value);
    btf := btf.(typeLen := btf.U32(12).value);
    btf := btf.(strOff := hdrLen + btf.U32(16).value);
    return Ok(btf);
  }

  /** A word of the data, as a number in the data's byte order. */
  lemma WordIsNumber(b: Btf, at: nat)
    requires at + 4 <= |b.data|
    ensures b.U32(at) == Some(Number(b.data[at..at + 4], !b.le))
  {
    var w := b.data[at..at + 4];
    FourBytes(w[0], w[1], w[2], w[3]);
    assert w == [w[0], w[1], w[2], w[3]];
  }

  /** From record to record, by the kind bits and the count of any info word. */
  lemma NextByKind(b: Btf, off: nat)
    ensures
      var info := b.U32(off + 4).GetOr(0);
      var kind, vlen := info / 0x100_0000 % 32, info % 0x1_0000;
      b.Next(off) == off + 12 + (if kind in {1, 14, 17} then 4
                                 else if kind == 3 then 12
                                 else if kind in {4, 5, 15, 19} then 12 * vlen
                                 else if kind in {6, 13} then 8 * vlen
                                 else 0)
  {
  }

  lemma HeaderBounds(b: Btf)
    requires Parsed(b)
    ensures b.typeOff < 0x2_0000_0000 && b.typeLen < 0x1_0000_0000 && b.strOff < 0x2_0000_0000
  {
  }

  /** `extra_len` on machine integers. */
  function Extra(kind: nat, vlen: usize): (r: usize)
    requires vlen < 0x1_0000
    ensures r as nat == ExtraLen(kind, vlen as nat) && r <= 12 * 0x1_0000
  {
    if kind == KIND_INT || kind == KIND_VAR || kind == KIND_DECL_TAG then 4
    else if kind == KIND_ARRAY then 12
    else if kind == KIND_STRUCT || kind == KIND_UNION || kind == KIND_DATASEC || kind == KIND_ENUM64 then 12 * vlen
    else if kind == KIND_ENUM || kind == KIND_FUNC_PROTO then 8 * vlen
    else 0
  }

  /** Where the record after the one at `cur` starts. */
  function PastRecord(cur: usize, kind: nat, vlen: usize): (next: usize)
    requires cur < 0x8000_0000_0000_0000 && vlen < 0x1_0000
    ensures next as nat == cur as nat + 12 + ExtraLen(kind, vlen as nat) && next < 0xF000_0000_0000_0000
  {
    cur + 12 + Extra(kind, vlen)
  }

  /** Kind, vlen and kind_flag from the info word of the record at `cur`. */
  method RecordHeader(b: Btf, cur: usize) returns (kind: nat, vlen: usize, kflag: nat)
    requires cur < 0xF000_0000_0000_0000 && cur as nat + 8 <= |b.data|
    ensures kind == b.Kind(cur as nat) && vlen as nat == b.Vlen(cur as nat) < 0x1_0000 && kflag == b.Kflag(cur as nat)
  {
    var info := b.U32((cur + 4) as nat);
    vlen := (info.value % 0x1_0000) as usize;
    kind := info.value / 0x100_0000 % 32;
    kflag := info.value / 0x8000_0000 % 2;
  }

  /** The type section's end, clamped: its length comes from the header. */
  method SectionEnd(b: Btf) returns (start: usize, end: usize)
    requires Parsed(b)
    ensures start as nat == b.typeOff && end as nat == b.End() < 0x8000_0000_0000_0000 && start < 0x2_0000_0000
  {
    HeaderBounds(b);
    start := b.typeOff as usize;
    end := start + b.typeLen as usize;
    if |b.data| as usize < end { end := |b.data| as usize; }
  }

  /** The offset of every record, in type id order. */
  method TypeOffsets(b: Btf) returns (offsets: seq<nat>)
    requires Parsed(b)
    ensures offsets == b.Offsets()
  {
    var cur, end := SectionEnd(b);
    offsets := [0];
    while cur + 12 <= end
      invariant cur < 0xF000_0000_0000_0000
      invariant b.Offsets() == offsets + b.Walk(cur as nat)
      decreases b.End() - cur as nat
    {
      offsets := offsets + [cur as nat];
      var kind, vlen, _ := RecordHeader(b, cur);
      cur := PastRecord(cur, kind, vlen);
    }
  }

  /** Where member `i` of the record at `cur` starts; its third word starts inside 64 bits too. */
  function MemberStart(cur: usize, i: usize): (m: usize)
    requires cur < 0xF000_0000_0000_0000 && i < 0x1_0000
    ensures m as nat == cur as nat + 12 + 12 * i as nat && m < 0xF100_0000_0000_0000
  {
    cur + 12 + i * 12
  }

  /** The offset word of member `i` of the record at `cur`, if the member can be read and is called `field`. */
  method ReadMember(b: Btf, cur: usize, i: usize, field: Str) returns (bits: Option<nat>)
    requires cur < 0xF000_0000_0000_0000 && i < 0x1_0000
    ensures bits.Some? <==> b.Names(cur as nat, i as nat, field)
    ensures bits.Some? ==> b.MemberWord(cur as nat, i as nat) == b.MemberOffset(b.Kflag(cur as nat), bits.value)
  {
    var m := MemberStart(cur, i);
    var name := b.U32(m as nat);
    bits := b.U32((m + 8) as nat);
    if name == None || bits == None || b.String(name.value) != field {
      bits := None;
    }
  }

  /** The first readable member of the record at `cur` called `field`, as a byte offset. */
  method FindMember(b: Btf, cur: usize, vlen: usize, kflag: nat, field: Str) returns (r: Option<nat>)
    requires cur < 0xF000_0000_0000_0000
    requires vlen as nat == b.Vlen(cur as nat) < 0x1_0000 && kflag == b.Kflag(cur as nat)
    ensures r == match b.Member(cur as nat, field) case None => None case Some(i) => Some(b.MemberWord(cur as nat, i))
  {
    for i := 0 to vlen
      invariant b.Member(cur as nat, field) == First(b.Named(cur as nat, field), i as nat)
    {
      MemberStep(b, cur as nat, i as nat, field);
      var bits := ReadMember(b, cur, i, field);
      if bits.Some? {
        return Some(b.MemberOffset(kflag, bits.value));
      }
    }
    return None;
  }

  lemma MemberStep(b: Btf, off: nat, i: nat, field: Str)
    requires i < b.Vlen(off)
    ensures First(b.Named(off, field), i)
         == if b.Names(off, i, field) then Some(i) else First(b.Named(off, field), i + 1)
  {
  }

  /** The inline walk to the first struct of that name, which stops there. */
  method WalkToStruct(b: Btf, structName: Str) returns (found: Option<usize>)
    requires Parsed(b)
    ensures found.Some? ==> found.value < 0xF000_0000_0000_0000 && found.value as nat + 8 <= |b.data|
    ensures b.FindType(b.Offsets(), KIND_STRUCT, structName) == if found.Some? then Some(found.value as nat) else None
  {
    var cur, end := SectionEnd(b);
    ghost var target := b.FindType(b.Offsets(), KIND_STRUCT, structName);
    assert b.Offsets()[1..] == b.Walk(cur as nat);
    while cur + 12 <= end
      invariant cur < 0xF000_0000_0000_0000
      invariant target == b.Find(b.Walk(cur as nat), KIND_STRUCT, structName)
      decreases b.End() - cur as nat
    {
      var kind, vlen, _ := RecordHeader(b, cur);
      WalkFinds(b, cur as nat, structName);
      if kind == KIND_STRUCT && b.TypeName(cur as nat) == structName {
        return Some(cur);
      }
      cur := PastRecord(cur, kind, vlen);
    }
    return None;
  }

  /**
   The field offset by the inline walk. It agrees with looking the struct up in
   the type index, on every byte string, for success, for the value and for the
   error.
  */
  method FieldOffset(b: Btf, structName: Str, field: Str) returns (r: Result<nat>)
    requires Parsed(b)
    ensures r == b.IndexedFieldOffset(structName, field)
  {
    var at := WalkToStruct(b, structName);
    if at == None { return Err("struct not found in BTF"); }
    var _, vlen, kflag := RecordHeader(b, at.value);
    var found := FindMember(b, at.value, vlen, kflag, field);
    if found == None { return Err("field not found"); }
    return Ok(found.value);
  }

  /** One step of the search through the index. */
  lemma {:induction false} WalkFinds(b: Btf, cur: nat, name: Str)
    requires cur + 12 <= b.End()
    ensures b.Find(b.Walk(cur), KIND_STRUCT, name)
         == if b.Kind(cur) == KIND_STRUCT && b.TypeName(cur) == name then Some(cur)
            else b.Find(b.Walk(b.Next(cur)), KIND_STRUCT, name)
  {
    assert b.Walk(cur)[1..] == b.Walk(b.Next(cur));
  }

  /**
   Every record a walk visits lies inside the section and the data, each at least
   12 bytes past the last, and no index computed from one leaves 64 bits.
  */
  lemma {:induction false} WalkIsBounded(b: Btf, cur: nat)
    requires Allocatable(b.data)
    ensures forall i :: 0 <= i < |b.Walk(cur)| ==> cur <= b.Walk(cur)[i] && b.Walk(cur)[i] + 12 <= b.End() <= |b.data|
    ensures forall i, j :: 0 <= i < j < |b.Walk(cur)| ==> b.Walk(cur)[i] + 12 <= b.Walk(cur)[j]
    ensures forall i :: 0 <= i < |b.Walk(cur)| ==>
              b.Next(b.Walk(cur)[i]) + 12 < 0x1_0000_0000_0000_0000
              && b.Walk(cur)[i] + 12 + 12 * b.Vlen(b.Walk(cur)[i]) + 12 < 0x1_0000_0000_0000_0000
    decreases |b.data| - cur
  {
    if cur + 12 <= b.End() {
      WalkIsBounded(b, b.Next(cur));
    }
  }

  /** A name offset outside the data names nothing: it matches the empty query only. */
  lemma OutsideNamesMatchNothing(b: Btf, nameOff: nat, query: Str)
    requires b.strOff + nameOff >= |b.data|
    ensures b.String(nameOff) == query <==> query == []
  {
  }

  lemma MemberFacts(b: Btf, off: nat, field: Str)
    ensures
      var r := b.Member(off, field);
      && (r == None ==> forall k :: 0 <= k < b.Vlen(off) ==> !b.Names(off, k, field))
      && (r.Some? ==> r.value < b.Vlen(off) && b.Names(off, r.value, field)
                      && forall k :: 0 <= k < r.value ==> !b.Names(off, k, field))
  {
    var flags := b.Named(off, field);
    forall k | 0 <= k < b.Vlen(off) ensures b.Names(off, k, field) == flags[k] {}
  }

  /** Member `i` of the struct at `off` is readable and called `field`; its offset word is `bits`. */
  predicate HasMember(b: Btf, off: nat, i: nat, field: Str, bits: nat) {
    && i < b.U32(off + 4).GetOr(0) % 0x1_0000
    && b.U32(off + 12 + 12 * i).Some? && b.String(b.U32(off + 12 + 12 * i).value) == field
    && b.U32(off + 12 + 12 * i + 8) == Some(bits)
  }

  /**
   Success means exactly: a struct of that name is indexed and it has a readable
   member so named. The value is then the first such member's, in bytes: of its low 24
   bits when bit 31 of the struct's info word is set.
  */
  lemma FieldOffsetIsFirstMember(b: Btf, structName: Str, field: Str)
    ensures
      var found := b.FindType(b.Offsets(), 4, structName);
      var r := b.IndexedFieldOffset(structName, field);
      && (r.Ok? <==> found.Some? && exists i: nat, bits: nat :: HasMember(b, found.value, i, field, bits))
      && (r.Ok? ==> exists i: nat, bits: nat ::
            && HasMember(b, found.value, i, field, bits)
            && (forall j: nat, other: nat :: HasMember(b, found.value, j, field, other) ==> i <= j)
            && r.value == (if b.U32(found.value + 4).GetOr(0) / 0x8000_0000 == 1 then bits % 0x100_0000 else bits) / 8)
  {
    var found := b.FindType(b.Offsets(), KIND_STRUCT, structName);
    if found.Some? {
      MemberFacts(b, found.value, field);
      forall i: nat, bits: nat | HasMember(b, found.value, i, field, bits) ensures b.Names(found.value, i, field) {}
      var first := b.Member(found.value, field);
      if first.Some? {
        assert HasMember(b, found.value, first.value, field, b.U32(found.value + 12 + 12 * first.value + 8).value);
      }
    }
  }
}
