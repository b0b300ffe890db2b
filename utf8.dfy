/** UTF-8 (RFC 3629), the encoding `Buffer.from(string)` applies before the
    fingerprint is base64-encoded. A Dafny `char` is a Unicode scalar value, so
    every character has exactly one encoding of one to four bytes. */
module Utf8 {
  import Base64

  type byte = Base64.byte

  function EncodeChar(c: char): (r: seq<byte>)
    ensures 1 <= |r| <= 4
    ensures c as int < 0x80 <==> |r| == 1
    ensures c as int < 0x80 ==> r == [c as int]
    ensures forall k :: 1 <= k < |r| ==> 0x80 <= r[k] < 0xC0
  {
    var cp := c as int;
    var q1, r1 := cp / 64, cp % 64;
    var q2, r2 := q1 / 64, q1 % 64;
    var q3, r3 := q2 / 64, q2 % 64;
    if cp < 0x80 then [cp]
    else if cp < 0x800 then [0xC0 + q1, 0x80 + r1]
    else if cp < 0x10000 then [0xE0 + q2, 0x80 + r2, 0x80 + r1]
    else [0xF0 + q3, 0x80 + r3, 0x80 + r2, 0x80 + r1]
  }

  /** The length of the sequence that starts with lead byte `b`. */
  function SequenceLength(b: byte): nat
  {
    if b < 0x80 then 1 else if b < 0xE0 then 2 else if b < 0xF0 then 3 else 4
  }

  /** The code point of one complete sequence. */
  function CodePoint(bs: seq<byte>): int
    requires |bs| >= 1
  {
    var b: seq<int> := bs;
    if |b| == 1 then b[0]
    else if |b| == 2 then (b[0] - 0xC0) * 64 + (b[1] - 0x80)
    else if |b| == 3 then ((b[0] - 0xE0) * 64 + (b[1] - 0x80)) * 64 + (b[2] - 0x80)
    else (((b[0] - 0xF0) * 64 + (b[1] - 0x80)) * 64 + (b[2] - 0x80)) * 64 + (b[3] - 0x80)
  }

  /** The lead byte announces the length, and the sequence decodes back to the character. */
  lemma DecodeChar(c: char)
    ensures SequenceLength(EncodeChar(c)[0]) == |EncodeChar(c)|
    ensures CodePoint(EncodeChar(c)) == c as int
  {
    var cp := c as int;
    var q1, r1 := cp / 64, cp % 64;
    var q2, r2 := q1 / 64, q1 % 64;
    var q3, r3 := q2 / 64, q2 % 64;
    assert cp == q1 * 64 + r1 && q1 == q2 * 64 + r2 && q2 == q3 * 64 + r3;
    if 0x800 <= cp < 0x10000 {
      assert q2 < 16;
    } else if 0x80 <= cp < 0x800 {
      assert 2 <= q1 < 32;
    } else if cp >= 0x10000 {
      assert q3 < 5;
    }
  }

  function EncodeString(s: string): (r: seq<byte>)
    ensures |r| >= |s|
    ensures (forall k :: 0 <= k < |s| ==> s[k] as int < 0x80) ==> r == seq(|s|, k requires 0 <= k < |s| => s[k] as int)
  {
    if s == [] then [] else EncodeChar(s[0]) + EncodeString(s[1..])
  }

  /** Distinct strings have distinct UTF-8 encodings. */
  lemma {:induction false} EncodeStringInjective(s: string, t: string)
    requires EncodeString(s) == EncodeString(t)
    ensures s == t
  {
    if s != [] && t != [] {
      var es, et := EncodeChar(s[0]), EncodeChar(t[0]);
      var e := EncodeString(s);
      assert e[0] == es[0] && e[0] == et[0];
      DecodeChar(s[0]);
      DecodeChar(t[0]);
      assert es == e[..|es|] && et == e[..|et|];
      assert s[0] == t[0];
      assert e[|es|..] == EncodeString(s[1..]) == EncodeString(t[1..]);
      EncodeStringInjective(s[1..], t[1..]);
    }
  }
}
