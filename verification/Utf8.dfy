/** What the scanner takes for UTF-8, against the encoding of section 3 of RFC 3629. */
module Utf8 {
  import opened Octets
  import opened TextScan

  /** A character number: the surrogates are none. */
  predicate Scalar(c: nat) {
    c <= 0x10FFFF && !(0xD800 <= c <= 0xDFFF)
  }

  /** The bits of a number in groups of six, most significant first. */
  function Encode(c: nat): (s: Bytes)
    requires Scalar(c)
    ensures 1 <= |s| <= 4
  {
    if c < 0x80 then [c]
    else if c < 0x800 then [0xC0 + c / 0x40, 0x80 + c % 0x40]
    else if c < 0x1_0000 then [0xE0 + c / 0x1000, 0x80 + c / 0x40 % 0x40, 0x80 + c % 0x40]
    else [0xF0 + c / 0x4_0000, 0x80 + c / 0x1000 % 0x40, 0x80 + c / 0x40 % 0x40, 0x80 + c % 0x40]
  }

  predicate Scalars(cs: seq<nat>) {
    forall i :: 0 <= i < |cs| ==> Scalar(cs[i])
  }

  function EncodeAll(cs: seq<nat>): Bytes
    requires Scalars(cs)
  {
    if cs == [] then [] else Encode(cs[0]) + EncodeAll(cs[1..])
  }

  lemma EncodedLength(c: nat)
    requires Scalar(c)
    ensures CharLen(Encode(c)) == |Encode(c)|
  {
    var s := Encode(c);
    if 0x800 <= c < 0x1_0000 {
      assert c / 0x1000 * 0x40 + c / 0x40 % 0x40 == c / 0x40;
    } else if c >= 0x1_0000 {
      assert c / 0x4_0000 * 0x40 + c / 0x1000 % 0x40 == c / 0x1000;
    }
  }

  /** An encoded character is one character, whatever follows. */
  lemma EncodedIsChar(c: nat, z: Bytes)
    requires Scalar(c)
    ensures CharLen(Encode(c) + z) == |Encode(c)|
  {
    EncodedLength(c);
    CharLenLocal(Encode(c), Encode(c) + z);
  }

  /** The number whose last six bits are those of b, after those of a. */
  function Join(a: nat, b: int): (c: nat)
    requires 0x80 <= b < 0xC0
    ensures c / 0x40 == a && 0x80 + c % 0x40 == b
  {
    a * 0x40 + (b - 0x80)
  }

  lemma Regroup(c: nat)
    ensures c / 0x1000 == c / 0x40 / 0x40 && c / 0x4_0000 == c / 0x40 / 0x40 / 0x40
  {
  }

  /** What begins with a character begins with an encoded one. */
  lemma CharIsEncoded(s: Bytes) returns (c: nat)
    requires CharLen(s) > 0
    ensures Scalar(c) && Encode(c) == s[..CharLen(s)]
  {
    var n, lead: int := CharLen(s), s[0];
    if n == 1 {
      c := lead;
    } else if n == 2 {
      c := Join(lead - 0xC0, s[1]);
    } else if n == 3 {
      c := Join(Join(lead - 0xE0, s[1]), s[2]);
    } else {
      c := Join(Join(Join(lead - 0xF0, s[1]), s[2]), s[3]);
    }
    Regroup(c);
  }

  lemma {:induction false} EncodedIsValid(cs: seq<nat>)
    requires Scalars(cs)
    ensures ValidUtf8(EncodeAll(cs))
    decreases |cs|
  {
    if cs != [] {
      var s := EncodeAll(cs);
      EncodedIsChar(cs[0], EncodeAll(cs[1..]));
      assert s[CharLen(s)..] == EncodeAll(cs[1..]);
      EncodedIsValid(cs[1..]);
    }
  }

  lemma {:induction false} ValidIsEncoded(s: Bytes) returns (cs: seq<nat>)
    requires ValidUtf8(s)
    ensures Scalars(cs) && EncodeAll(cs) == s
    decreases |s|
  {
    if s == [] {
      cs := [];
    } else {
      var c := CharIsEncoded(s);
      var rest := ValidIsEncoded(s[CharLen(s)..]);
      cs := [c] + rest;
      assert cs[1..] == rest && s == s[..CharLen(s)] + s[CharLen(s)..];
    }
  }

  /** Valid is exactly what encodes some sequence of character numbers. */
  lemma ValidMeansEncoded(s: Bytes)
    ensures ValidUtf8(s) <==> exists cs :: Scalars(cs) && EncodeAll(cs) == s
  {
    if ValidUtf8(s) {
      var cs := ValidIsEncoded(s);
    }
    forall cs | Scalars(cs) && EncodeAll(cs) == s ensures ValidUtf8(s) {
      EncodedIsValid(cs);
    }
  }

  /** And text is what encodes a sequence of numbers other than zero. */
  lemma TextMeansEncoded(s: Bytes)
    ensures IsText(s) <==> exists cs :: Scalars(cs) && EncodeAll(cs) == s && 0 !in cs
  {
    if IsText(s) {
      var cs := ValidIsEncoded(s);
      NulIsEncoded(cs);
    }
    forall cs | Scalars(cs) && EncodeAll(cs) == s && 0 !in cs ensures IsText(s) {
      EncodedIsValid(cs);
      NulIsEncoded(cs);
    }
  }

  lemma {:induction false} NulIsEncoded(cs: seq<nat>)
    requires Scalars(cs)
    ensures 0 in EncodeAll(cs) <==> 0 in cs
    decreases |cs|
  {
    if cs != [] {
      NulIsEncoded(cs[1..]);
      assert 0 in Encode(cs[0]) <==> cs[0] == 0;
      assert cs == [cs[0]] + cs[1..];
    }
  }
}
