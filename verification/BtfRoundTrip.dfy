/**
 A BTF writer, and the proof that the reader inverts it: for any list of types of
 every kind, any string table and either byte order, each lookup returns what the
 types declare.
*/
module BtfRoundTrip {
  import opened Prelude
  import opened TaskReads
  import opened Btf

  datatype Pair = Pair(name: Word, value: Word)
  datatype Triple = Triple(name: Word, value: Word, third: Word)

  /**
   Section 2.2, one constructor per kind with its own layout, and one for the kinds with
   only a header, whose count may say anything: a function's is its linkage.
  */
  datatype Type =
    | IntType(name: Word, size: Word, encoding: Word)
    | PtrType(target: Word)
    | ArrayType(elem: Word, index: Word, count: Word)
    | StructType(name: Word, size: Word, flag: bool, members: seq<Triple>)
    | UnionType(name: Word, size: Word, flag: bool, members: seq<Triple>)
    | EnumType(name: Word, size: Word, flag: bool, values: seq<Pair>)
    | TypedefType(name: Word, target: Word)
    | FuncProtoType(result: Word, params: seq<Pair>)
    | VarType(name: Word, target: Word, linkage: Word)
    | DatasecType(name: Word, size: Word, vars: seq<Triple>)
    | DeclTagType(name: Word, target: Word, component: Word)
    | Enum64Type(name: Word, size: Word, flag: bool, wide: seq<Triple>)
    | BareType(kind: nat, name: Word, target: Word, flag: bool, vlen: nat)
  {
    function Kind(): nat {
      match this
      case IntType(_, _, _) => 1
      case PtrType(_) => 2
      case ArrayType(_, _, _) => 3
      case StructType(_, _, _, _) => 4
      case UnionType(_, _, _, _) => 5
      case EnumType(_, _, _, _) => 6
      case TypedefType(_, _) => 8
      case FuncProtoType(_, _) => 13
      case VarType(_, _, _) => 14
      case DatasecType(_, _, _) => 15
      case DeclTagType(_, _, _) => 17
      case Enum64Type(_, _, _, _) => 19
      case BareType(kind, _, _, _, _) => kind
    }

    function Vlen(): nat {
      match this
      case StructType(_, _, _, members) => |members|
      case UnionType(_, _, _, members) => |members|
      case EnumType(_, _, _, values) => |values|
      case FuncProtoType(_, params) => |params|
      case DatasecType(_, _, vars) => |vars|
      case Enum64Type(_, _, _, wide) => |wide|
      case BareType(_, _, _, _, vlen) => vlen
      case _ => 0
    }

    predicate Flag() {
      (StructType? || UnionType? || EnumType? || Enum64Type? || BareType?) && this.flag
    }

    function NameOff(): Word {
      if PtrType? || ArrayType? || FuncProtoType? then 0 else this.name
    }

    /** The word after `info`: a size or a type id. */
    function SizeOrType(): Word {
      match this
      case IntType(_, size, _) => size
      case PtrType(target) => target
      case ArrayType(_, _, _) => 0
      case StructType(_, size, _, _) => size
      case UnionType(_, size, _, _) => size
      case EnumType(_, size, _, _) => size
      case TypedefType(_, target) => target
      case FuncProtoType(result, _) => result
      case VarType(_, target, _) => target
      case DatasecType(_, size, _) => size
      case DeclTagType(_, target, _) => target
      case Enum64Type(_, size, _, _) => size
      case BareType(_, _, target, _, _) => target
    }

    function Trailer(): seq<Word> {
      match this
      case IntType(_, _, encoding) => [encoding]
      case ArrayType(elem, index, count) => [elem, index, count]
      case StructType(_, _, _, members) => Triples(members)
      case UnionType(_, _, _, members) => Triples(members)
      case EnumType(_, _, _, values) => Pairs(values)
      case FuncProtoType(_, params) => Pairs(params)
      case VarType(_, _, linkage) => [linkage]
      case DatasecType(_, _, vars) => Triples(vars)
      case DeclTagType(_, _, component) => [component]
      case Enum64Type(_, _, _, wide) => Triples(wide)
      case _ => []
    }

    /** The counts and kinds that fit their bit fields; a bare kind is none of those with a trailer or a name above. */
    predicate Encodable() {
      && Vlen() < 0x1_0000
      && (BareType? ==> Kind() < 32 && Kind() !in {1, 2, 3, 4, 5, 6, 8, 13, 14, 15, 17, 19})
    }

    /** kind_flag in bit 31, kind in bits 24 to 28, vlen in the low 16. */
    function Info(): Word
      requires Encodable()
    {
      (if Flag() then 0x8000_0000 else 0) + Kind() * 0x100_0000 + Vlen()
    }

    function Words(): (w: seq<Word>)
      requires Encodable()
      ensures |w| >= 3 && 4 * |w| == 12 + ExtraLen(Kind(), Vlen())
    {
      [NameOff(), Info(), SizeOrType()] + Trailer()
    }
  }

  function Pairs(s: seq<Pair>): (w: seq<Word>)
    ensures |w| == 2 * |s|
  {
    if s == [] then [] else Pairs(s[..|s| - 1]) + [s[|s| - 1].name, s[|s| - 1].value]
  }

  function Triples(s: seq<Triple>): (w: seq<Word>)
    ensures |w| == 3 * |s|
  {
    if s == [] then [] else Triples(s[..|s| - 1]) + [s[|s| - 1].name, s[|s| - 1].value, s[|s| - 1].third]
  }

  lemma {:induction false} TripleAt(s: seq<Triple>, i: nat)
    requires i < |s|
    ensures Triples(s)[3 * i] == s[i].name && Triples(s)[3 * i + 2] == s[i].third
  {
    if i < |s| - 1 { TripleAt(s[..|s| - 1], i); }
  }

  predicate AllEncodable(types: seq<Type>) {
    forall i :: 0 <= i < |types| ==> types[i].Encodable()
  }

  /** Each type as its record's words. */
  function Records(types: seq<Type>): seq<seq<Word>>
    requires AllEncodable(types)
  {
    seq(|types|, i requires 0 <= i < |types| => types[i].Words())
  }

  function Concat(recs: seq<seq<Word>>): seq<Word> {
    if recs == [] then [] else Concat(recs[..|recs| - 1]) + recs[|recs| - 1]
  }

  /** Where record `i` starts, in a section that starts at `base`. */
  function Start(base: nat, recs: seq<seq<Word>>, i: nat): nat
    requires i <= |recs|
  {
    base + 4 * |Concat(recs[..i])|
  }

  // ---- bytes ----

  function ByteOf(w: Word, j: nat, le: bool): Byte
    requires j < 4
  {
    var place := if le then j else 3 - j;
    (if place == 0 then w
     else if place == 1 then w / 0x100
     else if place == 2 then w / 0x1_0000
     else w / 0x100_0000) % 256
  }

  /** The first `n` bytes of a word, in memory order. */
  function FirstBytes(w: Word, le: bool, n: nat): (r: seq<Byte>)
    requires n <= 4
    ensures |r| == n
  {
    if n == 0 then [] else FirstBytes(w, le, n - 1) + [ByteOf(w, n - 1, le)]
  }

  function WordBytes(w: Word, le: bool): (r: seq<Byte>)
    ensures |r| == 4
  {
    FirstBytes(w, le, 4)
  }

  function AllBytes(words: seq<Word>, le: bool): (r: seq<Byte>)
    ensures |r| == 4 * |words|
  {
    if words == [] then [] else AllBytes(words[..|words| - 1], le) + WordBytes(words[|words| - 1], le)
  }

  lemma Digits(w: Word)
    ensures w == w % 256 + 0x100 * (w / 0x100 % 256)
              + 0x1_0000 * (w / 0x1_0000 % 256) + 0x100_0000 * (w / 0x100_0000 % 256)
  {
    assert w / 256 == w / 256 % 256 + 256 * (w / 0x1_0000);
    assert w / 0x1_0000 == w / 0x1_0000 % 256 + 256 * (w / 0x100_0000);
  }

  /** `at` on, `b` reads these words. */
  predicate Carries(b: Btf, at: nat, words: seq<Word>) {
    forall k :: 0 <= k < |words| ==> b.U32(at + 4 * k) == Some(words[k])
  }

  lemma WordReads(b: Btf, at: nat, w: Word)
    requires at + 4 <= |b.data| && b.data[at..at + 4] == WordBytes(w, b.le)
    ensures b.U32(at) == Some(w)
  {
    var bytes := b.data[at..at + 4];
    BytesOfWord(w, b.le);
    assert b.data[at] == bytes[0] && b.data[at + 1] == bytes[1];
    assert b.data[at + 2] == bytes[2] && b.data[at + 3] == bytes[3];
    Digits(w);
  }

  lemma BytesOfWord(w: Word, le: bool)
    ensures WordBytes(w, le) == [ByteOf(w, 0, le), ByteOf(w, 1, le), ByteOf(w, 2, le), ByteOf(w, 3, le)]
  {
    assert FirstBytes(w, le, 1) == [ByteOf(w, 0, le)];
    assert FirstBytes(w, le, 2) == [ByteOf(w, 0, le), ByteOf(w, 1, le)];
    assert FirstBytes(w, le, 3) == [ByteOf(w, 0, le), ByteOf(w, 1, le), ByteOf(w, 2, le)];
  }

  lemma {:induction false} BytesAt(words: seq<Word>, le: bool, k: nat)
    requires k < |words|
    ensures AllBytes(words, le)[4 * k..4 * k + 4] == WordBytes(words[k], le)
  {
    var n := |words| - 1;
    var init := AllBytes(words[..n], le);
    assert AllBytes(words, le) == init + WordBytes(words[n], le);
    if k < n {
      BytesAt(words[..n], le, k);
      assert (init + WordBytes(words[n], le))[4 * k..4 * k + 4] == init[4 * k..4 * k + 4];
    }
  }

  /** Each word's bytes stand in the data from `at` on. */
  predicate Spells(data: seq<Byte>, le: bool, at: nat, words: seq<Word>) {
    && at + 4 * |words| <= |data|
    && forall k :: 0 <= k < |words| ==> data[at + 4 * k..at + 4 * k + 4] == WordBytes(words[k], le)
  }

  lemma {:induction false} BytesSpell(data: seq<Byte>, le: bool, at: nat, words: seq<Word>)
    requires at + 4 * |words| <= |data| && data[at..at + 4 * |words|] == AllBytes(words, le)
    ensures Spells(data, le, at, words)
  {
    forall k | 0 <= k < |words| ensures data[at + 4 * k..at + 4 * k + 4] == WordBytes(words[k], le) {
      Window(data, at, 4 * |words|, 4 * k);
      BytesAt(words, le, k);
    }
  }

  lemma Window<T>(s: seq<T>, at: nat, len: nat, i: nat)
    requires at + len <= |s| && i + 4 <= len
    ensures s[at..at + len][i..i + 4] == s[at + i..at + i + 4]
  {
    var outer := s[at..at + len];
    var inner, direct := outer[i..i + 4], s[at + i..at + i + 4];
    assert inner[0] == direct[0] && inner[1] == direct[1] && inner[2] == direct[2] && inner[3] == direct[3];
  }

  lemma SpelledRead(b: Btf, at: nat, words: seq<Word>)
    requires Spells(b.data, b.le, at, words)
    ensures Carries(b, at, words)
  {
    forall k | 0 <= k < |words| ensures b.U32(at + 4 * k) == Some(words[k]) {
      WordReads(b, at + 4 * k, words[k]);
    }
  }

  lemma CarriesPart(b: Btf, at: nat, words: seq<Word>, i: nat, j: nat)
    requires Carries(b, at, words) && i <= j <= |words|
    ensures Carries(b, at + 4 * i, words[i..j])
  {
    forall k | 0 <= k < j - i ensures b.U32(at + 4 * i + 4 * k) == Some(words[i..j][k]) {
      assert words[i..j][k] == words[i + k];
      assert at + 4 * i + 4 * k == at + 4 * (i + k);
    }
  }

  // ---- the file ----

  /** What a file may hold beside its sections: more header, and bytes before and between the two sections. */
  datatype Layout = Layout(header: seq<Byte>, before: seq<Byte>, between: seq<Byte>) {
    function TypeOff(): nat { 24 + |header| + |before| }

    /** The string section's offset, after `n` bytes of types, from the end of the header. */
    function StrOff(n: nat): nat { |before| + n + |between| }

    predicate Holds(words: seq<Word>, strings: seq<Byte>) {
      24 + |header| + StrOff(4 * |words|) + |strings| < 0x1_0000_0000
    }
  }

  predicate Fits(types: seq<Type>, strings: seq<Byte>, layout: Layout) {
    AllEncodable(types) && layout.Holds(Concat(Records(types)), strings)
  }

  function Magic(le: bool): seq<Byte> {
    if le then [0x9f, 0xeb, 1, 0] else [0xeb, 0x9f, 1, 0]
  }

  function HeaderWords(layout: Layout, words: seq<Word>, strings: seq<Byte>): (w: seq<Word>)
    requires layout.Holds(words, strings)
    ensures |w| == 5
  {
    [24 + |layout.header|, |layout.before|, 4 * |words|, layout.StrOff(4 * |words|), |strings|]
  }

  /** Magic, version 1, no flags; the header words and whatever else the header holds; then the sections. */
  function File(words: seq<Word>, strings: seq<Byte>, le: bool, layout: Layout): seq<Byte>
    requires layout.Holds(words, strings)
  {
    Magic(le) + AllBytes(HeaderWords(layout, words, strings), le) + layout.header
    + layout.before + AllBytes(words, le) + layout.between + strings
  }

  function Serialize(types: seq<Type>, strings: seq<Byte>, le: bool, layout: Layout): seq<Byte>
    requires Fits(types, strings, layout)
  {
    File(Concat(Records(types)), strings, le, layout)
  }

  function WrittenWords(words: seq<Word>, strings: seq<Byte>, le: bool, layout: Layout): Btf
    requires layout.Holds(words, strings)
  {
    Btf(File(words, strings, le, layout), le, layout.TypeOff(), 4 * |words|,
        24 + |layout.header| + layout.StrOff(4 * |words|))
  }

  /** What the reader should make of the file. */
  function Written(types: seq<Type>, strings: seq<Byte>, le: bool, layout: Layout): Btf
    requires Fits(types, strings, layout)
  {
    WrittenWords(Concat(Records(types)), strings, le, layout)
  }

  /** Where the parts of a file lie. */
  lemma {:induction false} PartsOf(words: seq<Word>, strings: seq<Byte>, le: bool, layout: Layout)
    requires layout.Holds(words, strings)
    ensures
      var data, off := File(words, strings, le, layout), layout.TypeOff();
      var str := 24 + |layout.header| + layout.StrOff(4 * |words|);
      && off + 4 * |words| <= str && |data| == str + |strings|
      && data[..4] == Magic(le) && data[4..24] == AllBytes(HeaderWords(layout, words, strings), le)
      && data[off..off + 4 * |words|] == AllBytes(words, le) && data[str..] == strings
  {
    var header, types := AllBytes(HeaderWords(layout, words, strings), le), AllBytes(words, le);
    var head := Magic(le) + header + layout.header + layout.before;
    var data := File(words, strings, le, layout);
    assert data == head + types + layout.between + strings;
    assert |head| == layout.TypeOff() && |header| == 20;
    assert data[..4] == head[..4] == Magic(le);
    assert data[4..24] == head[4..24] == header;
  }

  lemma FileReads(words: seq<Word>, strings: seq<Byte>, b: Btf, layout: Layout)
    requires layout.Holds(words, strings) && b.data == File(words, strings, b.le, layout)
    ensures |b.data| == 24 + |layout.header| + layout.StrOff(4 * |words|) + |strings|
    ensures Carries(b, 4, HeaderWords(layout, words, strings))
    ensures Carries(b, layout.TypeOff(), words)
    ensures b.data[24 + |layout.header| + layout.StrOff(4 * |words|)..] == strings && b.data[..4] == Magic(b.le)
  {
    PartsOf(words, strings, b.le, layout);
    BytesSpell(b.data, b.le, 4, HeaderWords(layout, words, strings));
    BytesSpell(b.data, b.le, layout.TypeOff(), words);
    SpelledRead(b, 4, HeaderWords(layout, words, strings));
    SpelledRead(b, layout.TypeOff(), words);
  }

  lemma MagicReads(data: seq<Byte>, le: bool)
    requires |data| >= 24 && data[..4] == Magic(le)
    ensures (Half(data[0], data[1]) == MAGIC <==> le) && (Half(data[1], data[0]) == MAGIC <==> !le)
  {
    assert data[0] == data[..4][0] && data[1] == data[..4][1];
  }

  lemma HeaderFields(b: Btf, header: seq<Word>)
    requires |header| == 5 && Carries(b, 4, header)
    ensures b.U32(4) == Some(header[0]) && b.U32(8) == Some(header[1])
    ensures b.U32(12) == Some(header[2]) && b.U32(16) == Some(header[3])
  {
    assert b.U32(4 + 4 * 0) == Some(header[0]) && b.U32(4 + 4 * 1) == Some(header[1]);
    assert b.U32(4 + 4 * 2) == Some(header[2]) && b.U32(4 + 4 * 3) == Some(header[3]);
  }

  /** The header reads back, and the byte order is recognised. */
  lemma HeaderReads(words: seq<Word>, strings: seq<Byte>, le: bool, layout: Layout)
    requires layout.Holds(words, strings)
    ensures ParseHeader(File(words, strings, le, layout)) == Ok(WrittenWords(words, strings, le, layout))
    ensures Parsed(WrittenWords(words, strings, le, layout))
  {
    var data := File(words, strings, le, layout);
    FileReads(words, strings, Btf(data, le, 0, 0, 0), layout);
    MagicReads(data, le);
    HeaderFields(Btf(data, le, 0, 0, 0), HeaderWords(layout, words, strings));
  }

  lemma StringsRead(words: seq<Word>, strings: seq<Byte>, le: bool, layout: Layout, off: nat)
    requires layout.Holds(words, strings)
    ensures WrittenWords(words, strings, le, layout).String(off) == TextAt(strings, off)
  {
    var b := WrittenWords(words, strings, le, layout);
    assert b.strOff <= |b.data| && b.data[b.strOff..] == strings by { FileReads(words, strings, b, layout); }
    TextShift(b.data, b.strOff, strings, off);
  }

  lemma TextShift(data: seq<Byte>, base: nat, strings: seq<Byte>, off: nat)
    requires base <= |data| && data[base..] == strings
    ensures TextAt(data, base + off) == TextAt(strings, off)
  {
    if off <= |strings| { assert data[base + off..] == data[base..][off..]; }
  }

  // ---- records ----

  /** A record is as long as its own header says. */
  predicate Shaped(rec: seq<Word>) {
    |rec| >= 3 && 4 * |rec| == 12 + ExtraLen(rec[1] / 0x100_0000 % 32, rec[1] % 0x1_0000)
  }

  /** `b`'s type section is these records, one after another. */
  predicate Laid(b: Btf, recs: seq<seq<Word>>) {
    && b.typeOff >= 24 && b.typeLen == 4 * |Concat(recs)| && b.typeOff + b.typeLen <= |b.data|
    && Carries(b, b.typeOff, Concat(recs))
    && forall i :: 0 <= i < |recs| ==> Shaped(recs[i])
  }

  lemma {:induction false} ConcatPrefix(recs: seq<seq<Word>>, i: nat)
    requires i <= |recs|
    ensures |Concat(recs[..i])| <= |Concat(recs)| && Concat(recs)[..|Concat(recs[..i])|] == Concat(recs[..i])
  {
    if i == |recs| {
      assert recs[..i] == recs;
    } else {
      ConcatPrefix(recs[..|recs| - 1], i);
      assert recs[..|recs| - 1][..i] == recs[..i];
    }
  }

  lemma StartStep(base: nat, recs: seq<seq<Word>>, i: nat)
    requires i < |recs|
    ensures Start(base, recs, i + 1) == Start(base, recs, i) + 4 * |recs[i]| <= base + 4 * |Concat(recs)|
    ensures Concat(recs)[|Concat(recs[..i])|..|Concat(recs[..i + 1])|] == recs[i]
  {
    assert recs[..i + 1][..i] == recs[..i];
    ConcatPrefix(recs, i + 1);
    var whole, part := Concat(recs[..i + 1]), Concat(recs[..i]);
    assert whole == part + recs[i];
    assert Concat(recs)[|part|..|whole|] == whole[|part|..];
  }

  /** The header of record `i` decodes to its own words. */
  lemma RecordReads(b: Btf, recs: seq<seq<Word>>, i: nat)
    requires Laid(b, recs) && i < |recs|
    ensures
      var off, rec := Start(b.typeOff, recs, i), recs[i];
      && Carries(b, off, rec) && |rec| >= 3
      && b.U32(off) == Some(rec[0]) && b.Info(off) == rec[1] && b.U32(off + 8) == Some(rec[2])
      && b.Next(off) == Start(b.typeOff, recs, i + 1) && off + 12 <= b.End()
  {
    StartStep(b.typeOff, recs, i);
    CarriesPart(b, b.typeOff, Concat(recs), |Concat(recs[..i])|, |Concat(recs[..i + 1])|);
    HeadReads(b, Start(b.typeOff, recs, i), recs[i]);
  }

  lemma HeadReads(b: Btf, off: nat, rec: seq<Word>)
    requires |rec| >= 3 && Carries(b, off, rec)
    ensures b.U32(off) == Some(rec[0]) && b.Info(off) == rec[1] && b.U32(off + 8) == Some(rec[2])
  {
    assert b.U32(off + 4 * 0) == Some(rec[0]) && b.U32(off + 4 * 1) == Some(rec[1]);
    assert b.U32(off + 4 * 2) == Some(rec[2]);
  }

  /** The starts of the records from `i` on. */
  function Starts(base: nat, recs: seq<seq<Word>>, i: nat): (r: seq<nat>)
    requires i <= |recs|
    ensures |r| == |recs| - i
    ensures forall j :: 0 <= j < |r| ==> r[j] == Start(base, recs, i + j)
    decreases |recs| - i
  {
    if i == |recs| then [] else [Start(base, recs, i)] + Starts(base, recs, i + 1)
  }

  /** The walk from record `i` visits exactly the records from there on. */
  lemma {:induction false} WalkVisits(b: Btf, recs: seq<seq<Word>>, i: nat)
    requires Laid(b, recs) && i <= |recs|
    ensures b.Walk(Start(b.typeOff, recs, i)) == Starts(b.typeOff, recs, i)
    decreases |recs| - i
  {
    if i == |recs| {
      assert recs[..i] == recs;
    } else {
      RecordReads(b, recs, i);
      WalkVisits(b, recs, i + 1);
    }
  }

  lemma EveryRecordShaped(types: seq<Type>)
    requires AllEncodable(types)
    ensures forall i :: 0 <= i < |types| ==> Shaped(Records(types)[i])
  {
    forall i | 0 <= i < |types| ensures Shaped(Records(types)[i]) { InfoDecodes(types[i]); }
  }

  lemma InfoDecodes(t: Type)
    requires t.Encodable()
    ensures Shaped(t.Words())
    ensures t.Words()[0] == t.NameOff() && t.Words()[1] == t.Info() && t.Words()[2] == t.SizeOrType()
    ensures t.Info() / 0x100_0000 % 32 == t.Kind() && t.Info() % 0x1_0000 == t.Vlen()
    ensures t.Info() / 0x8000_0000 == if t.Flag() then 1 else 0
  {
    BitFields(t.Flag(), t.Kind(), t.Vlen());
  }

  lemma BitFields(flag: bool, kind: nat, vlen: nat)
    requires kind < 32 && vlen < 0x1_0000
    ensures
      var info := (if flag then 0x8000_0000 else 0) + kind * 0x100_0000 + vlen;
      info / 0x100_0000 % 32 == kind && info % 0x1_0000 == vlen && info / 0x8000_0000 == if flag then 1 else 0
  {
  }

  /** `b` reads these types and these strings, wherever its bytes came from. */
  ghost predicate Reads(b: Btf, types: seq<Type>, strings: seq<Byte>) {
    && AllEncodable(types) && Laid(b, Records(types))
    && forall off: nat :: SameText(b, strings, off)
  }

  /** A name offset means the same to the reader as in the string table. */
  predicate SameText(b: Btf, strings: seq<Byte>, off: nat) {
    b.String(off) == TextAt(strings, off)
  }

  lemma WrittenReads(types: seq<Type>, strings: seq<Byte>, le: bool, layout: Layout)
    requires Fits(types, strings, layout)
    ensures Reads(Written(types, strings, le, layout), types, strings)
  {
    var words := Concat(Records(types));
    FileReads(words, strings, WrittenWords(words, strings, le, layout), layout);
    EveryRecordShaped(types);
    forall off: nat ensures SameText(WrittenWords(words, strings, le, layout), strings, off) {
      StringsRead(words, strings, le, layout, off);
    }
  }

  /** A record's header, decoded: kind, count, flag, name and reference. */
  predicate Decodes(b: Btf, off: nat, t: Type, strings: seq<Byte>) {
    && b.Kind(off) == t.Kind() && b.Vlen(off) == t.Vlen() && b.Kflag(off) == (if t.Flag() then 1 else 0)
    && b.TypeName(off) == TextAt(strings, t.NameOff())
    && b.U32(off + 8) == Some(t.SizeOrType())
  }

  lemma HeaderDecodes(b: Btf, off: nat, t: Type, strings: seq<Byte>)
    requires t.Encodable() && Carries(b, off, t.Words()) && SameText(b, strings, t.NameOff())
    ensures Decodes(b, off, t, strings)
  {
    InfoDecodes(t);
    HeadReads(b, off, t.Words());
  }

  lemma TypeCarried(b: Btf, types: seq<Type>, strings: seq<Byte>, i: nat)
    requires Reads(b, types, strings) && i < |types|
    ensures Carries(b, Start(b.typeOff, Records(types), i), types[i].Words())
  {
    RecordReads(b, Records(types), i);
  }

  /** The header of type `i`'s record decodes to its kind, count, flag, name and reference. */
  lemma TypeReads(b: Btf, types: seq<Type>, strings: seq<Byte>, i: nat)
    requires Reads(b, types, strings) && i < |types|
    ensures Decodes(b, Start(b.typeOff, Records(types), i), types[i], strings)
  {
    TypeCarried(b, types, strings, i);
    assert SameText(b, strings, types[i].NameOff());
    HeaderDecodes(b, Start(b.typeOff, Records(types), i), types[i], strings);
  }

  /** `type_offsets[id]` is where record `id` starts; ids count from 1. */
  lemma OffsetsAreStarts(b: Btf, types: seq<Type>, strings: seq<Byte>)
    requires Reads(b, types, strings)
    ensures b.Offsets() == [0] + Starts(b.typeOff, Records(types), 0)
  {
    assert Start(b.typeOff, Records(types), 0) == b.typeOff by { assert Records(types)[..0] == []; }
    WalkVisits(b, Records(types), 0);
  }

  // ---- what the types themselves declare ----

  /** The first type from `i` on with this kind and name. */
  function Declared(types: seq<Type>, strings: seq<Byte>, kind: nat, name: Str, i: nat): (r: Option<nat>)
    requires i <= |types|
    ensures r.Some? ==> i <= r.value < |types| && types[r.value].Kind() == kind
    decreases |types| - i
  {
    if i == |types| then None
    else if types[i].Kind() == kind && TextAt(strings, types[i].NameOff()) == name then Some(i)
    else Declared(types, strings, kind, name, i + 1)
  }

  lemma {:induction false} FindsTheDeclared(b: Btf, types: seq<Type>, strings: seq<Byte>, kind: nat, name: Str, i: nat)
    requires Reads(b, types, strings) && i <= |types|
    ensures b.Find(Starts(b.typeOff, Records(types), i), kind, name)
         == match Declared(types, strings, kind, name, i)
            case None => None
            case Some(j) => Some(Start(b.typeOff, Records(types), j))
    decreases |types| - i
  {
    if i < |types| {
      TypeReads(b, types, strings, i);
      assert Starts(b.typeOff, Records(types), i)[1..] == Starts(b.typeOff, Records(types), i + 1);
      FindsTheDeclared(b, types, strings, kind, name, i + 1);
    }
  }

  lemma {:induction false} FindTypeFindsTheDeclared(b: Btf, types: seq<Type>, strings: seq<Byte>, kind: nat, name: Str)
    requires Reads(b, types, strings)
    ensures
      b.FindType(b.Offsets(), kind, name)
      == match Declared(types, strings, kind, name, 0)
         case None => None
         case Some(j) => Some(Start(b.typeOff, Records(types), j))
  {
    OffsetsAreStarts(b, types, strings);
    FindsTheDeclared(b, types, strings, kind, name, 0);
    assert ([0] + Starts(b.typeOff, Records(types), 0))[1..] == Starts(b.typeOff, Records(types), 0);
  }

  /** For each member, whether this is its name. */
  function DeclaredNamed(members: seq<Triple>, strings: seq<Byte>, field: Str): (flags: seq<bool>)
    ensures |flags| == |members|
  {
    seq(|members|, i requires 0 <= i < |members| => TextAt(strings, members[i].name) == field)
  }

  /** Section 2.2.4: with kind_flag the low 24 bits are the bit offset, else the whole word. */
  function DeclaredByteOffset(t: Type, i: nat): nat
    requires t.StructType? && i < |t.members|
  {
    (if t.flag then t.members[i].third % 0x100_0000 else t.members[i].third) / 8
  }

  function DeclaredFieldOffset(types: seq<Type>, strings: seq<Byte>, structName: Str, field: Str): Result<nat>
    requires AllEncodable(types)
  {
    match Declared(types, strings, 4, structName, 0)
    case None => Err("struct not found in BTF")
    case Some(j) =>
      match First(DeclaredNamed(types[j].members, strings, field), 0)
      case None => Err("field not found")
      case Some(i) => Ok(DeclaredByteOffset(types[j], i))
  }

  lemma MemberDecodes(b: Btf, off: nat, t: Type, i: nat, field: Str)
    requires t.Encodable() && Carries(b, off, t.Words()) && t.StructType? && i < |t.members|
    ensures b.Names(off, i, field) <==> b.String(t.members[i].name) == field
    ensures b.MemberWord(off, i) == DeclaredByteOffset(t, i)
  {
    InfoDecodes(t);
    HeadReads(b, off, t.Words());
    MemberWords(t, i);
    var k := 3 + 3 * i;
    assert b.U32(off + 4 * k) == Some(t.Words()[k]);
    assert b.U32(off + 4 * (k + 2)) == Some(t.Words()[k + 2]);
    assert off + 12 + 12 * i == off + 4 * k && off + 12 + 12 * i + 8 == off + 4 * (k + 2);
  }

  lemma MemberReads(b: Btf, types: seq<Type>, strings: seq<Byte>, j: nat, i: nat, field: Str)
    requires Reads(b, types, strings) && j < |types| && types[j].StructType? && i < |types[j].members|
    ensures
      var off := Start(b.typeOff, Records(types), j);
      && (b.Names(off, i, field) <==> TextAt(strings, types[j].members[i].name) == field)
      && b.MemberWord(off, i) == DeclaredByteOffset(types[j], i)
  {
    TypeCarried(b, types, strings, j);
    MemberDecodes(b, Start(b.typeOff, Records(types), j), types[j], i, field);
    assert SameText(b, strings, types[j].members[i].name);
  }

  lemma MemberWords(t: Type, i: nat)
    requires t.Encodable() && t.StructType? && i < |t.members|
    ensures |t.Words()| == 3 + 3 * |t.members|
    ensures t.Words()[3 + 3 * i] == t.members[i].name && t.Words()[3 + 3 * i + 2] == t.members[i].third
  {
    TripleAt(t.members, i);
    After3(t.NameOff(), t.Info(), t.SizeOrType(), Triples(t.members), 3 * i);
    After3(t.NameOff(), t.Info(), t.SizeOrType(), Triples(t.members), 3 * i + 2);
  }

  lemma After3(a: Word, b: Word, c: Word, rest: seq<Word>, k: nat)
    requires k < |rest|
    ensures ([a, b, c] + rest)[3 + k] == rest[k]
  {
  }

  lemma MembersRead(b: Btf, types: seq<Type>, strings: seq<Byte>, j: nat, field: Str)
    requires Reads(b, types, strings) && j < |types| && types[j].StructType?
    ensures b.Named(Start(b.typeOff, Records(types), j), field) == DeclaredNamed(types[j].members, strings, field)
  {
    VlenReads(b, types, strings, j);
    var off := Start(b.typeOff, Records(types), j);
    forall i | 0 <= i < |types[j].members|
      ensures b.Named(off, field)[i] == DeclaredNamed(types[j].members, strings, field)[i]
    {
      MemberReads(b, types, strings, j, i, field);
    }
  }

  lemma VlenReads(b: Btf, types: seq<Type>, strings: seq<Byte>, j: nat)
    requires Reads(b, types, strings) && j < |types|
    ensures b.Vlen(Start(b.typeOff, Records(types), j)) == types[j].Vlen()
  {
    TypeReads(b, types, strings, j);
  }

  /** The reader's field offset is the declared one, for every query, success or error. */
  lemma FieldOffsetReads(b: Btf, types: seq<Type>, strings: seq<Byte>, structName: Str, field: Str)
    requires Reads(b, types, strings)
    ensures b.IndexedFieldOffset(structName, field) == DeclaredFieldOffset(types, strings, structName, field)
  {
    FindTypeFindsTheDeclared(b, types, strings, 4, structName);
    match Declared(types, strings, 4, structName, 0)
    case None =>
    case Some(j) =>
      MembersRead(b, types, strings, j, field);
      var first := First(DeclaredNamed(types[j].members, strings, field), 0);
      if first.Some? {
        MemberReads(b, types, strings, j, first.value, field);
      }
  }

  /** The type a reference names, when it is of the expected kind; ids count from 1. */
  function DeclaredReferent(types: seq<Type>, id: nat, expected: nat): (r: Result<nat>)
    ensures r.Ok? ==> r.value < |types| && types[r.value].Kind() == expected
  {
    if id == 0 || id > |types| then Err("dangling type reference")
    else if types[id - 1].Kind() != expected then Err("unexpected BTF kind in reference chain")
    else Ok(id - 1)
  }

  function DeclaredProtoParams(types: seq<Type>, strings: seq<Byte>, typedef: Str): Result<nat> {
    match Declared(types, strings, 8, typedef, 0)
    case None => Err("typedef not in BTF")
    case Some(td) =>
      match DeclaredReferent(types, types[td].SizeOrType(), 2)
      case Err(e) => Err(e)
      case Ok(ptr) =>
        match DeclaredReferent(types, types[ptr].SizeOrType(), 13)
        case Err(e) => Err(e)
        case Ok(proto) => Ok(types[proto].Vlen())
  }

  lemma ReferentReads(b: Btf, types: seq<Type>, strings: seq<Byte>, i: nat, expected: nat)
    requires Reads(b, types, strings) && i < |types|
    ensures
      b.Referent(b.Offsets(), Start(b.typeOff, Records(types), i), expected)
      == match DeclaredReferent(types, types[i].SizeOrType(), expected)
         case Err(e) => Err(e)
         case Ok(j) => Ok(Start(b.typeOff, Records(types), j))
  {
    var id := types[i].SizeOrType();
    assert b.U32(Start(b.typeOff, Records(types), i) + 8) == Some(id) by { TypeReads(b, types, strings, i); }
    assert |b.Offsets()| == |types| + 1 && b.Offsets()[0] == 0 by { OffsetsAreStarts(b, types, strings); }
    if 1 <= id <= |types| { OffsetOfId(b, types, strings, id); }
  }

  lemma OffsetOfId(b: Btf, types: seq<Type>, strings: seq<Byte>, id: nat)
    requires Reads(b, types, strings) && 1 <= id <= |types|
    ensures id < |b.Offsets()| && b.Offsets()[id] == Start(b.typeOff, Records(types), id - 1) != 0
    ensures b.Kind(Start(b.typeOff, Records(types), id - 1)) == types[id - 1].Kind()
  {
    TypeReads(b, types, strings, id - 1);
    OffsetsAreStarts(b, types, strings);
    assert b.Offsets()[id] == Starts(b.typeOff, Records(types), 0)[id - 1];
  }

  /** Through typedef and pointer to the prototype: the declared parameter count, or the declared error. */
  lemma ProtoParamsReads(b: Btf, types: seq<Type>, strings: seq<Byte>, typedef: Str)
    requires Reads(b, types, strings)
    ensures b.TracepointProtoParams(typedef) == DeclaredProtoParams(types, strings, typedef)
  {
    FindTypeFindsTheDeclared(b, types, strings, 8, typedef);
    match Declared(types, strings, 8, typedef, 0)
    case None =>
    case Some(td) =>
      ReferentReads(b, types, strings, td, 2);
      match DeclaredReferent(types, types[td].SizeOrType(), 2) {
        case Err(_) =>
        case Ok(ptr) =>
          ReferentReads(b, types, strings, ptr, 13);
          match DeclaredReferent(types, types[ptr].SizeOrType(), 13) {
            case Err(_) =>
            case Ok(proto) => TypeReads(b, types, strings, proto);
          }
      }
  }

  /**
   Written in either byte order and any layout, any types and strings read back: the
   file parses, every type id maps to the start of its record, and both lookups give
   what the types declare of the strings at their name offsets.
  */
  lemma ReadsBack(types: seq<Type>, strings: seq<Byte>, le: bool, layout: Layout, structName: Str, field: Str,
                  typedef: Str)
    requires Fits(types, strings, layout)
    ensures
      var parsed := ParseHeader(Serialize(types, strings, le, layout));
      && parsed.Ok?
      && |parsed.value.Offsets()| == |types| + 1
      && (forall id :: 1 <= id <= |types| ==>
            parsed.value.Offsets()[id] == Start(layout.TypeOff(), Records(types), id - 1))
      && parsed.value.IndexedFieldOffset(structName, field) == DeclaredFieldOffset(types, strings, structName, field)
      && parsed.value.TracepointProtoParams(typedef) == DeclaredProtoParams(types, strings, typedef)
  {
    var b := Written(types, strings, le, layout);
    HeaderReads(Concat(Records(types)), strings, le, layout);
    WrittenReads(types, strings, le, layout);
    OffsetsAreStarts(b, types, strings);
    FieldOffsetReads(b, types, strings, structName, field);
    ProtoParamsReads(b, types, strings, typedef);
  }
}
