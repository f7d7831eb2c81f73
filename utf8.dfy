/**
 * `String.data(using: .utf8)`: the UTF-8 encoding of a string, which the
 * multipart body builder appends piece by piece.
 */
module Utf8 {

  type byte = b: int | 0 <= b < 256

  /** The one to four bytes that encode one Unicode scalar value. */
  function EncodeChar(c: char): (r: seq<byte>)
    ensures 1 <= |r| <= 4
    ensures |r| == 1 <==> c as int < 0x80
    ensures |r| == 1 ==> r[0] == c as int
    ensures |r| > 1 ==> 0xC0 <= r[0] && forall i :: 1 <= i < |r| ==> 0x80 <= r[i] < 0xC0
  {
    var cp := c as int;
    if cp < 0x80 then [cp]
    else if cp < 0x800 then [0xC0 + cp / 0x40, 0x80 + cp % 0x40]
    else if cp < 0x1_0000 then [0xE0 + cp / 0x1000, 0x80 + cp / 0x40 % 0x40, 0x80 + cp % 0x40]
    else [0xF0 + cp / 0x4_0000, 0x80 + cp / 0x1000 % 0x40, 0x80 + cp / 0x40 % 0x40, 0x80 + cp % 0x40]
  }

  /** The code point a well-formed one-to-four byte sequence stands for. */
  function DecodeChar(b: seq<byte>): int
    requires 1 <= |b| <= 4
  {
    var v: seq<int> := b;
    if |b| == 1 then v[0]
    else if |b| == 2 then (v[0] - 0xC0) * 0x40 + (v[1] - 0x80)
    else if |b| == 3 then (v[0] - 0xE0) * 0x1000 + (v[1] - 0x80) * 0x40 + (v[2] - 0x80)
    else (v[0] - 0xF0) * 0x4_0000 + (v[1] - 0x80) * 0x1000 + (v[2] - 0x80) * 0x40 + (v[3] - 0x80)
  }

  /** The quotient of `x` by 2^12, from one way of writing `x`. */
  lemma QuotientBy4096(x: int, q: int, r: int)
    requires x == 0x1000 * q + r && 0 <= r < 0x1000
    ensures x / 0x1000 == q
  {
  }

  /** The quotient of `x` by 2^18, from one way of writing `x`. */
  lemma QuotientBy262144(x: int, q: int, r: int)
    requires x == 0x4_0000 * q + r && 0 <= r < 0x4_0000
    ensures x / 0x4_0000 == q
  {
  }

  /** Encoding a character loses nothing: decoding its bytes gives its code point back. */
  lemma DecodeEncodeChar(c: char)
    ensures DecodeChar(EncodeChar(c)) == c as int
  {
    var cp := c as int;
    var q1, r1 := cp / 0x40, cp % 0x40;
    var q2, r2 := q1 / 0x40, q1 % 0x40;
    var q3, r3 := q2 / 0x40, q2 % 0x40;
    QuotientBy4096(cp, q2, 0x40 * r2 + r1);
    QuotientBy262144(cp, q3, 0x1000 * r3 + 0x40 * r2 + r1);
  }

  /** `s.data(using: .utf8)!`. */
  function Encode(s: string): seq<byte> {
    if s == [] then [] else EncodeChar(s[0]) + Encode(s[1..])
  }

  /** Encoding distributes over concatenation, so appending pieces equals encoding the whole. */
  lemma {:induction false} EncodeAppend(a: string, b: string)
    ensures Encode(a + b) == Encode(a) + Encode(b)
  {
    if a != [] {
      assert (a + b)[1..] == a[1..] + b;
      EncodeAppend(a[1..], b);
    } else {
      assert a + b == b;
    }
  }

  /** An ASCII string is encoded one byte per character, each byte its character's code. */
  lemma {:induction false} EncodeAscii(s: string)
    requires forall i :: 0 <= i < |s| ==> s[i] as int < 0x80
    ensures |Encode(s)| == |s|
    ensures forall i :: 0 <= i < |s| ==> Encode(s)[i] == s[i] as int
  {
    if s != [] {
      EncodeAscii(s[1..]);
    }
  }
}
