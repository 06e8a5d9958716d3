/** Well-formed UTF-8: a recogniser by the grammar in section 4 of RFC 3629, and the proof that it accepts exactly
    the encodings, by the table in section 3, of sequences of Unicode scalar values. */
module Utf8 {
  import opened Wire

  predicate Tail(b: byte) { 0x80 <= b <= 0xBF }

  predicate Two(a: byte, b: byte) { 0xC2 <= a <= 0xDF && Tail(b) }

  predicate Three(a: byte, b: byte, c: byte)
  {
    Tail(c) &&
    (|| (a == 0xE0 && 0xA0 <= b <= 0xBF)
     || (0xE1 <= a <= 0xEC && Tail(b))
     || (a == 0xED && 0x80 <= b <= 0x9F)
     || (0xEE <= a <= 0xEF && Tail(b)))
  }

  predicate Four(a: byte, b: byte, c: byte, d: byte)
  {
    Tail(c) && Tail(d) &&
    (|| (a == 0xF0 && 0x90 <= b <= 0xBF)
     || (0xF1 <= a <= 0xF3 && Tail(b))
     || (a == 0xF4 && 0x80 <= b <= 0x8F))
  }

  /** The length of the UTF8-char at the front, 0 if there is none. */
  function CharLength(bs: bytes): (n: nat)
    ensures n <= |bs|
  {
    if bs == [] then 0
    else if bs[0] <= 0x7F then 1
    else if |bs| >= 2 && Two(bs[0], bs[1]) then 2
    else if |bs| >= 3 && Three(bs[0], bs[1], bs[2]) then 3
    else if |bs| >= 4 && Four(bs[0], bs[1], bs[2], bs[3]) then 4
    else 0
  }

  predicate ValidUtf8(bs: bytes)
    decreases |bs|
  {
    bs == [] || (CharLength(bs) > 0 && ValidUtf8(bs[CharLength(bs)..]))
  }

  // ---- What it accepts ---------------------------------------------------------------------------

  /** A code point that is no surrogate. */
  type Scalar = c: nat | c < 0xD800 || 0xE000 <= c < 0x110000

  function EncodeScalar(c: Scalar): (bs: bytes)
    ensures bs != []
  {
    if c < 0x80 then [c]
    else if c < 0x800 then [0xC0 + c / 0x40, 0x80 + c % 0x40]
    else if c < 0x10000 then [0xE0 + c / 0x1000, 0x80 + c / 0x40 % 0x40, 0x80 + c % 0x40]
    else [0xF0 + c / 0x40000, 0x80 + c / 0x1000 % 0x40, 0x80 + c / 0x40 % 0x40, 0x80 + c % 0x40]
  }

  function EncodeText(cs: seq<Scalar>): bytes
  {
    if cs == [] then [] else EncodeScalar(cs[0]) + EncodeText(cs[1..])
  }

  lemma EncodedCharLength(c: Scalar, rest: bytes)
    ensures CharLength(EncodeScalar(c) + rest) == |EncodeScalar(c)|
  {
    var bs := EncodeScalar(c) + rest;
    if c < 0x80 {
      assert bs[0] == c;
    } else if c < 0x800 {
      assert bs[0] == 0xC0 + c / 0x40 && bs[1] == 0x80 + c % 0x40;
    } else if c < 0x10000 {
      assert bs[0] == 0xE0 + c / 0x1000 && bs[1] == 0x80 + c / 0x40 % 0x40 && bs[2] == 0x80 + c % 0x40;
      ThreeBytes(c);
    } else {
      assert bs[0] == 0xF0 + c / 0x40000 && bs[1] == 0x80 + c / 0x1000 % 0x40;
      assert bs[2] == 0x80 + c / 0x40 % 0x40 && bs[3] == 0x80 + c % 0x40;
      FourBytes(c);
    }
  }

  lemma ThreeBytes(c: nat)
    requires 0x800 <= c < 0x10000
    ensures c / 0x40 == c / 0x1000 * 0x40 + c / 0x40 % 0x40
  {
  }

  lemma FourBytes(c: nat)
    requires 0x10000 <= c < 0x110000
    ensures c / 0x1000 == c / 0x40000 * 0x40 + c / 0x1000 % 0x40
  {
  }

  /** Six more bits. */
  function Six(high: int, b: byte): int { high * 0x40 + (b - 0x80) }

  lemma SixParts(high: nat, b: byte)
    requires Tail(b)
    ensures Six(high, b) / 0x40 == high && Six(high, b) % 0x40 == b - 0x80
  {
  }

  /** The code point at the front. */
  function DecodeScalar(bs: bytes): (c: Scalar)
    requires CharLength(bs) > 0
  {
    var n := CharLength(bs);
    if n == 1 then bs[0]
    else if n == 2 then Six(bs[0] - 0xC0, bs[1])
    else if n == 3 then Six(Six(bs[0] - 0xE0, bs[1]), bs[2])
    else Six(Six(Six(bs[0] - 0xF0, bs[1]), bs[2]), bs[3])
  }

  lemma DecodeInverts(bs: bytes)
    requires CharLength(bs) > 0
    ensures EncodeScalar(DecodeScalar(bs)) == bs[..CharLength(bs)]
  {
    hide EncodeScalar, Six, Two, Three, Four;
    match CharLength(bs)
    case 1 => DecodeOne(bs[0]);
    case 2 => DecodeTwo(bs[0], bs[1]);
    case 3 => DecodeThree(bs[0], bs[1], bs[2]);
    case _ => DecodeFour(bs[0], bs[1], bs[2], bs[3]);
  }

  lemma DecodeOne(a: byte)
    requires a <= 0x7F
    ensures EncodeScalar(a) == [a]
  {
  }

  lemma DecodeTwo(a: byte, b: byte)
    requires Two(a, b)
    ensures EncodeScalar(Six(a - 0xC0, b)) == [a, b]
  {
    SixParts(a - 0xC0, b);
  }

  lemma DecodeThree(a: byte, b: byte, c: byte)
    requires Three(a, b, c)
    ensures EncodeScalar(Six(Six(a - 0xE0, b), c)) == [a, b, c]
  {
    SixParts(a - 0xE0, b);
    SixParts(Six(a - 0xE0, b), c);
    ThreeBytes(Six(Six(a - 0xE0, b), c));
  }

  lemma DecodeFour(a: byte, b: byte, c: byte, d: byte)
    requires Four(a, b, c, d)
    ensures EncodeScalar(Six(Six(Six(a - 0xF0, b), c), d)) == [a, b, c, d]
  {
    var h := Six(a - 0xF0, b);
    SixParts(a - 0xF0, b);
    SixParts(h, c);
    SixParts(Six(h, c), d);
    var s := Six(Six(h, c), d);
    DivTwice(s);
    hide Six;
    assert s / 0x40 == Six(h, c) && s / 0x1000 == h && s / 0x40000 == a - 0xF0;
    FourRange(a, b, h, s);
  }

  lemma DivTwice(s: nat)
    ensures s / 0x40 / 0x40 == s / 0x1000 && s / 0x1000 / 0x40 == s / 0x40000
  {
  }

  lemma FourRange(a: byte, b: byte, h: nat, s: nat)
    requires (a == 0xF0 && b >= 0x90) || 0xF1 <= a <= 0xF3 || (a == 0xF4 && b <= 0x8F)
    requires h == Six(a - 0xF0, b) && Tail(b) && s / 0x1000 == h
    ensures 0x10000 <= s < 0x110000
  {
  }

  lemma {:induction false} EncodedIsValid(cs: seq<Scalar>)
    ensures ValidUtf8(EncodeText(cs))
    decreases |cs|
  {
    hide CharLength, EncodeScalar;
    if cs != [] {
      var a, rest := EncodeScalar(cs[0]), EncodeText(cs[1..]);
      EncodedCharLength(cs[0], rest);
      EncodedIsValid(cs[1..]);
      assert (a + rest)[|a|..] == rest;
    }
  }

  lemma {:induction false} ValidIsEncoded(bs: bytes) returns (cs: seq<Scalar>)
    requires ValidUtf8(bs)
    ensures EncodeText(cs) == bs
    decreases |bs|
  {
    hide CharLength, EncodeScalar, DecodeScalar;
    if bs == [] {
      cs := [];
    } else {
      var n := CharLength(bs);
      var rest := ValidIsEncoded(bs[n..]);
      var c := DecodeScalar(bs);
      DecodeInverts(bs);
      cs := [c] + rest;
      assert cs[1..] == rest && bs[..n] + bs[n..] == bs;
    }
  }

  /** A byte string is accepted exactly if it encodes some text. */
  lemma ValidIff(bs: bytes)
    ensures ValidUtf8(bs) <==> exists cs: seq<Scalar> :: EncodeText(cs) == bs
  {
    if ValidUtf8(bs) { var cs := ValidIsEncoded(bs); }
    if cs: seq<Scalar> :| EncodeText(cs) == bs { EncodedIsValid(cs); }
  }
}
