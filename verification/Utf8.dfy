/**
 What the text check accepts: exactly the strings of Unicode scalar values, each in
 the encoding of section 3 of RFC 3629.
*/
module Utf8 {
  import opened TaskReads
  import opened Btf

  /** A code point that is no surrogate. */
  predicate Scalar(cp: nat) {
    cp < 0xD800 || 0xE000 <= cp < 0x11_0000
  }

  function Encode(cp: nat): seq<Byte>
    requires Scalar(cp)
  {
    if cp < 0x80 then [cp]
    else if cp < 0x800 then [0xC0 + cp / 0x40, 0x80 + cp % 0x40]
    else if cp < 0x1_0000 then [0xE0 + cp / 0x1000, 0x80 + cp / 0x40 % 0x40, 0x80 + cp % 0x40]
    else [0xF0 + cp / 0x4_0000, 0x80 + cp / 0x1000 % 0x40, 0x80 + cp / 0x40 % 0x40, 0x80 + cp % 0x40]
  }

  predicate Scalars(cps: seq<nat>) {
    forall i :: 0 <= i < |cps| ==> Scalar(cps[i])
  }

  function EncodeAll(cps: seq<nat>): seq<Byte>
    requires Scalars(cps)
  {
    if cps == [] then [] else Encode(cps[0]) + EncodeAll(cps[1..])
  }

  /** An encoded scalar is one character, whatever follows. */
  lemma EncodedIsChar(cp: nat, rest: seq<Byte>)
    requires Scalar(cp)
    ensures CharLen(Encode(cp) + rest) == |Encode(cp)|
  {
    var s := Encode(cp) + rest;
    assert forall i :: 0 <= i < |Encode(cp)| ==> s[i] == Encode(cp)[i];
  }

  /** The scalar that a well-formed character encodes. */
  function Decode(s: seq<Byte>): nat
    requires s != [] && CharLen(s) > 0
  {
    if CharLen(s) == 1 then s[0]
    else if CharLen(s) == 2 then Join(s[0] - 0xC0, s[1] - 0x80)
    else if CharLen(s) == 3 then Join(Join(s[0] - 0xE0, s[1] - 0x80), s[2] - 0x80)
    else Join(Join(Join(s[0] - 0xF0, s[1] - 0x80), s[2] - 0x80), s[3] - 0x80)
  }

  /** One more six-bit group. */
  function Join(high: nat, low: nat): nat {
    high * 0x40 + low
  }

  /** Taking six-bit groups apart again. */
  lemma Groups(a: nat, b: nat, c: nat, d: nat)
    requires b < 0x40 && c < 0x40 && d < 0x40
    ensures (a * 0x40 + b) / 0x40 == a && (a * 0x40 + b) % 0x40 == b
    ensures
      var n := a * 0x1000 + b * 0x40 + c;
      n / 0x1000 == a && n / 0x40 % 0x40 == b && n % 0x40 == c
    ensures
      var n := a * 0x4_0000 + b * 0x1000 + c * 0x40 + d;
      n / 0x4_0000 == a && n / 0x1000 % 0x40 == b && n / 0x40 % 0x40 == c && n % 0x40 == d
  {
    assert (a * 0x1000 + b * 0x40 + c) / 0x40 == a * 0x40 + b;
    assert (a * 0x4_0000 + b * 0x1000 + c * 0x40 + d) / 0x40 == a * 0x1000 + b * 0x40 + c;
    assert (a * 0x4_0000 + b * 0x1000 + c * 0x40 + d) / 0x1000 == a * 0x40 + b;
  }

  lemma TwoBytes(s: seq<Byte>)
    requires s != [] && CharLen(s) == 2
    ensures Scalar(Decode(s)) && Encode(Decode(s)) == [s[0], s[1]]
  {
    Groups(s[0] - 0xC0, s[1] - 0x80, 0, 0);
  }

  lemma ThreeBytes(s: seq<Byte>)
    requires s != [] && CharLen(s) == 3
    ensures Scalar(Decode(s)) && Encode(Decode(s)) == [s[0], s[1], s[2]]
  {
    Groups(s[0] - 0xE0, s[1] - 0x80, s[2] - 0x80, 0);
  }

  lemma FourBytesOfChar(s: seq<Byte>)
    requires s != [] && CharLen(s) == 4
    ensures Scalar(Decode(s)) && Encode(Decode(s)) == [s[0], s[1], s[2], s[3]]
  {
    Groups(s[0] - 0xF0, s[1] - 0x80, s[2] - 0x80, s[3] - 0x80);
  }

  lemma CharIsEncoded(s: seq<Byte>)
    requires s != [] && CharLen(s) > 0
    ensures Scalar(Decode(s)) && Encode(Decode(s)) == s[..CharLen(s)]
  {
    if CharLen(s) == 2 { TwoBytes(s); }
    if CharLen(s) == 3 { ThreeBytes(s); }
    if CharLen(s) == 4 { FourBytesOfChar(s); }
  }

  lemma {:induction false} EncodedIsUtf8(cps: seq<nat>)
    requires Scalars(cps)
    ensures IsUtf8(EncodeAll(cps))
  {
    if cps != [] {
      EncodedIsChar(cps[0], EncodeAll(cps[1..]));
      EncodedIsUtf8(cps[1..]);
      assert (Encode(cps[0]) + EncodeAll(cps[1..]))[|Encode(cps[0])|..] == EncodeAll(cps[1..]);
    }
  }

  lemma {:induction false} Utf8IsEncoded(s: seq<Byte>) returns (cps: seq<nat>)
    requires IsUtf8(s)
    ensures Scalars(cps) && EncodeAll(cps) == s
    decreases |s|
  {
    if s == [] {
      cps := [];
    } else {
      var rest := Utf8IsEncoded(s[CharLen(s)..]);
      CharIsEncoded(s);
      cps := [Decode(s)] + rest;
      assert cps[1..] == rest;
    }
  }

  /** The text check, both ways. */
  lemma {:induction false} Utf8IffEncoded(s: seq<Byte>)
    ensures IsUtf8(s) <==> exists cps :: Scalars(cps) && EncodeAll(cps) == s
  {
    if IsUtf8(s) { var cps := Utf8IsEncoded(s); }
    if cps :| Scalars(cps) && EncodeAll(cps) == s { EncodedIsUtf8(cps); }
  }
}
