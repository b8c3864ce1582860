// Well-formed characters are the encodings of the scalar values (RFC 3629,
// section 3), and nothing else.
module Scalars {
  import opened Utf8
  import opened Lines
  import opened Points

  predicate IsScalar(cp: nat) { cp < 0xD800 || 0xE000 <= cp < 0x11_0000 }

  function Encode(cp: nat): Bytes
    requires IsScalar(cp)
  {
    if cp < 0x80 then [cp]
    else if cp < 0x800 then [0xC0 + cp / 64, 0x80 + cp % 64]
    else if cp < 0x1_0000 then [0xE0 + cp / 0x1000, 0x80 + cp / 64 % 64, 0x80 + cp % 64]
    else [0xF0 + cp / 0x4_0000, 0x80 + cp / 0x1000 % 64, 0x80 + cp / 64 % 64, 0x80 + cp % 64]
  }

  /** The front of a text that starts with an encoding is that character. */
  lemma EncodedIsChar(cp: nat, rest: Bytes)
    requires IsScalar(cp)
    ensures CharLen(Encode(cp) + rest) == |Encode(cp)|
  {
    var s := Encode(cp) + rest;
    assert forall i :: 0 <= i < |Encode(cp)| ==> s[i] == Encode(cp)[i];
  }

  /** The six payload bits of a continuation byte. */
  function Bits(b: Byte): nat { if b >= 0x80 then b - 0x80 else 0 }

  function Lead(b: Byte, mark: nat): nat { if b >= mark then b - mark else 0 }

  /** The scalar value of a well-formed character. */
  function Decoded(s: Bytes): nat
    requires CharLen(s) > 0
  {
    match CharLen(s)
    case 1 => s[0]
    case 2 => Lead(s[0], 0xC0) * 64 + Bits(s[1])
    case 3 => Lead(s[0], 0xE0) * 0x1000 + Bits(s[1]) * 64 + Bits(s[2])
    case _ => Lead(s[0], 0xF0) * 0x4_0000 + Bits(s[1]) * 0x1000 + Bits(s[2]) * 64 + Bits(s[3])
  }

  lemma TwoParts(a: nat, b: nat)
    requires b < 64
    ensures (a * 64 + b) / 64 == a && (a * 64 + b) % 64 == b
  {
  }

  lemma ThreeParts(a: nat, b: nat, c: nat)
    requires b < 64 && c < 64
    ensures var cp := a * 0x1000 + b * 64 + c;
            cp / 0x1000 == a && cp / 64 % 64 == b && cp % 64 == c
  {
    TwoParts(a * 64 + b, c);
    TwoParts(a, b);
  }

  lemma FourParts(a: nat, b: nat, c: nat, d: nat)
    requires b < 64 && c < 64 && d < 64
    ensures var cp := a * 0x4_0000 + b * 0x1000 + c * 64 + d;
            cp / 0x4_0000 == a && cp / 0x1000 % 64 == b && cp / 64 % 64 == c && cp % 64 == d
  {
    TwoParts(a * 0x1000 + b * 64 + c, d);
    ThreeParts(a, b, c);
  }

  /** A well-formed character is the encoding of its scalar value. */
  lemma CharIsEncoded(s: Bytes)
    requires CharLen(s) > 0
    ensures IsScalar(Decoded(s)) && Encode(Decoded(s)) == s[..CharLen(s)]
  {
    var n := CharLen(s);
    if n == 2 {
      TwoParts(Lead(s[0], 0xC0), Bits(s[1]));
    } else if n == 3 {
      ThreeParts(Lead(s[0], 0xE0), Bits(s[1]), Bits(s[2]));
    } else if n == 4 {
      FourParts(Lead(s[0], 0xF0), Bits(s[1]), Bits(s[2]), Bits(s[3]));
    }
  }

  function EncodeAll(cps: seq<nat>): Bytes
    requires forall i :: 0 <= i < |cps| ==> IsScalar(cps[i])
  {
    if cps == [] then [] else Encode(cps[0]) + EncodeAll(cps[1..])
  }

  /** A text is well formed exactly if it is the encoding of some scalar values. */
  lemma {:induction false} EncodedIsValid(cps: seq<nat>)
    requires forall i :: 0 <= i < |cps| ==> IsScalar(cps[i])
    ensures Valid(EncodeAll(cps))
  {
    hide CharLen, Encode;
    if cps != [] {
      var rest := EncodeAll(cps[1..]);
      EncodedIsChar(cps[0], rest);
      EncodedIsValid(cps[1..]);
      SomeBytes(cps[0]);
      assert (Encode(cps[0]) + rest)[|Encode(cps[0])|..] == rest;
    }
  }

  lemma SomeBytes(cp: nat)
    requires IsScalar(cp)
    ensures |Encode(cp)| > 0
  {
  }

  lemma {:induction false} ValidIsEncoded(s: Bytes) returns (cps: seq<nat>)
    requires Valid(s)
    ensures (forall i :: 0 <= i < |cps| ==> IsScalar(cps[i])) && EncodeAll(cps) == s
    decreases |s|
  {
    hide CharLen, Encode, Decoded;
    if s == [] {
      cps := [];
    } else {
      var n := CharLen(s);
      CharIsEncoded(s);
      var rest := ValidIsEncoded(s[n..]);
      cps := [Decoded(s)] + rest;
      assert cps[1..] == rest && s == s[..n] + s[n..];
    }
  }

  // --- Byte lengths ---

  function Codes(t: Text): seq<nat> { seq(|t|, i requires 0 <= i < |t| => t[i] as nat) }

  /** The byte length of a text is that of its encoding. */
  lemma {:induction false} ByteLenIsEncoded(t: Text)
    ensures (forall i :: 0 <= i < |t| ==> IsScalar(Codes(t)[i])) && ByteLen(t) == |EncodeAll(Codes(t))|
  {
    hide Encode, Utf8Len;
    forall i | 0 <= i < |t|
      ensures IsScalar(Codes(t)[i])
    {
      CharLength(t[i]);
    }
    if t != [] {
      var front, last := t[..|t| - 1], t[|t| - 1];
      ByteLenIsEncoded(front);
      assert Codes(t) == Codes(front) + [last as nat];
      CharLength(last);
      EncodeSnoc(Codes(front), last as nat);
    }
  }

  lemma CharLength(c: char)
    ensures IsScalar(c as nat) && Utf8Len(c) == |Encode(c as nat)|
  {
  }

  lemma {:induction false} EncodeSnoc(cps: seq<nat>, cp: nat)
    requires IsScalar(cp) && forall i :: 0 <= i < |cps| ==> IsScalar(cps[i])
    ensures EncodeAll(cps + [cp]) == EncodeAll(cps) + Encode(cp)
  {
    hide Encode;
    if cps == [] {
      assert [] + [cp] == [cp] && [cp][1..] == [];
      assert Encode(cp) + [] == [] + Encode(cp);
    } else {
      assert (cps + [cp])[0] == cps[0] && (cps + [cp])[1..] == cps[1..] + [cp];
      EncodeSnoc(cps[1..], cp);
    }
  }
}
