/** The base 64 encoding of section 4 of RFC 4648 (alphabet `A-Z a-z 0-9 + /`,
    `=` padding), as produced by Node's `Buffer.toString('base64')`, and its
    decoding, which proves the encoding injective. */
module Base64 {

  type byte = x: int | 0 <= x < 256

  type sextet = x: int | 0 <= x < 64

  /** The character of value `i` in Table 1 of the RFC. */
  function CharOf(i: sextet): (c: char)
    ensures IsAlphabet(c)
  {
    if i < 26 then ('A' as int + i) as char
    else if i < 52 then ('a' as int + i - 26) as char
    else if i < 62 then ('0' as int + i - 52) as char
    else if i == 62 then '+'
    else '/'
  }

  predicate IsAlphabet(c: char)
  {
    ('A' <= c <= 'Z') || ('a' <= c <= 'z') || ('0' <= c <= '9') || c == '+' || c == '/'
  }

  /** The value of an alphabet character; characters outside the alphabet read as 0. */
  function ValueOf(c: char): (i: sextet)
    ensures IsAlphabet(c) ==> CharOf(i) == c
  {
    if 'A' <= c <= 'Z' then c as int - 'A' as int
    else if 'a' <= c <= 'z' then c as int - 'a' as int + 26
    else if '0' <= c <= '9' then c as int - '0' as int + 52
    else if c == '+' then 62
    else if c == '/' then 63
    else 0
  }

  lemma ValueOfCharOf(i: sextet)
    ensures ValueOf(CharOf(i)) == i
  {
  }

  /** Three bytes (24 bits) as four 6-bit groups, most significant first. */
  function Quad(a: byte, b: byte, c: byte): (r: string)
    ensures |r| == 4
    ensures forall k :: 0 <= k < 4 ==> IsAlphabet(r[k])
  {
    [CharOf(a / 4), CharOf((a % 4) * 16 + b / 16), CharOf((b % 16) * 4 + c / 64), CharOf(c % 64)]
  }

  /** RFC 4648 section 4: full groups of three bytes become four characters; a
      final group of two bytes becomes three characters and one `=`, a final
      single byte two characters and `==`. */
  function Encode(bs: seq<byte>): (r: string)
    ensures forall k :: 0 <= k < |r| ==> IsAlphabet(r[k]) || r[k] == '='
  {
    if |bs| >= 3 then
      Quad(bs[0], bs[1], bs[2]) + Encode(bs[3..])
    else if |bs| == 2 then Quad(bs[0], bs[1], 0)[..3] + "="
    else if |bs| == 1 then Quad(bs[0], 0, 0)[..2] + "=="
    else []
  }

  /** Bytes of one group of four characters, padding removed. */
  function DecodeQuad(q: string): (bs: seq<byte>)
    requires |q| == 4
  {
    var i0, i1, i2, i3 := ValueOf(q[0]), ValueOf(q[1]), ValueOf(q[2]), ValueOf(q[3]);
    var a := i0 * 4 + i1 / 16;
    var b := (i1 % 16) * 16 + i2 / 4;
    var c := (i2 % 4) * 64 + i3;
    if q[2] == '=' then [a] else if q[3] == '=' then [a, b] else [a, b, c]
  }

  function Decode(s: string): seq<byte>
    decreases |s|
  {
    if |s| < 4 then [] else DecodeQuad(s[..4]) + Decode(s[4..])
  }

  /** The 6-bit groups of three bytes put back together give the bytes. */
  lemma Regroup(a: byte, b: byte, c: byte)
    ensures (a / 4) * 4 + ((a % 4) * 16 + b / 16) / 16 == a
    ensures (((a % 4) * 16 + b / 16) % 16) * 16 + ((b % 16) * 4 + c / 64) / 4 == b
    ensures (((b % 16) * 4 + c / 64) % 4) * 64 + c % 64 == c
  {
    var a1, a0 := a / 4, a % 4;
    var b1, b0 := b / 16, b % 16;
    var c1, c0 := c / 64, c % 64;
    assert a == a1 * 4 + a0 && b == b1 * 16 + b0 && c == c1 * 64 + c0;
    assert (a0 * 16 + b1) / 16 == a0 && (a0 * 16 + b1) % 16 == b1;
    assert (b0 * 4 + c1) / 4 == b0 && (b0 * 4 + c1) % 4 == c1;
  }

  lemma QuadRoundTrip(a: byte, b: byte, c: byte)
    ensures DecodeQuad(Quad(a, b, c)) == [a, b, c]
  {
    ValueOfCharOf(a / 4);
    ValueOfCharOf((a % 4) * 16 + b / 16);
    ValueOfCharOf((b % 16) * 4 + c / 64);
    ValueOfCharOf(c % 64);
    Regroup(a, b, c);
  }

  lemma PairRoundTrip(a: byte, b: byte)
    ensures DecodeQuad(Quad(a, b, 0)[..3] + "=") == [a, b]
  {
    ValueOfCharOf(a / 4);
    ValueOfCharOf((a % 4) * 16 + b / 16);
    ValueOfCharOf((b % 16) * 4);
    Regroup(a, b, 0);
  }

  lemma SingleRoundTrip(a: byte)
    ensures DecodeQuad(Quad(a, 0, 0)[..2] + "==") == [a]
  {
    ValueOfCharOf(a / 4);
    ValueOfCharOf((a % 4) * 16);
    Regroup(a, 0, 0);
  }

  lemma DecodeStep(q: string, rest: string)
    requires |q| == 4
    ensures Decode(q + rest) == DecodeQuad(q) + Decode(rest)
  {
    assert (q + rest)[..4] == q && (q + rest)[4..] == rest;
  }

  /** A string of exactly four characters decodes as one group. */
  lemma DecodeOne(q: string)
    requires |q| == 4
    ensures Decode(q) == DecodeQuad(q)
  {
    DecodeStep(q, []);
    assert q + [] == q;
  }

  lemma EncodeShort(bs: seq<byte>)
    requires 1 <= |bs| <= 2
    ensures |bs| == 2 ==> Encode(bs) == Quad(bs[0], bs[1], 0)[..3] + "="
    ensures |bs| == 1 ==> Encode(bs) == Quad(bs[0], 0, 0)[..2] + "=="
  {
  }

  lemma ShortDisplay(bs: seq<byte>)
    requires 1 <= |bs| <= 2
    ensures |bs| == 2 ==> bs == [bs[0], bs[1]]
    ensures |bs| == 1 ==> bs == [bs[0]]
  {
  }

  lemma RoundTripTail(bs: seq<byte>)
    requires 1 <= |bs| <= 2
    ensures Decode(Encode(bs)) == bs
  {
    EncodeShort(bs);
    ShortDisplay(bs);
    if |bs| == 2 {
      DecodeOne(Quad(bs[0], bs[1], 0)[..3] + "=");
      PairRoundTrip(bs[0], bs[1]);
    } else {
      DecodeOne(Quad(bs[0], 0, 0)[..2] + "==");
      SingleRoundTrip(bs[0]);
    }
  }

  lemma EncodeStep(bs: seq<byte>)
    requires |bs| >= 3
    ensures Encode(bs) == Quad(bs[0], bs[1], bs[2]) + Encode(bs[3..])
  {
  }

  /** One group of three bytes survives the round trip, ahead of the rest. */
  lemma RoundTripStep(bs: seq<byte>)
    requires |bs| >= 3
    ensures Decode(Encode(bs)) == [bs[0], bs[1], bs[2]] + Decode(Encode(bs[3..]))
  {
    EncodeStep(bs);
    DecodeStep(Quad(bs[0], bs[1], bs[2]), Encode(bs[3..]));
    QuadRoundTrip(bs[0], bs[1], bs[2]);
  }

  lemma HeadAndTail(bs: seq<byte>)
    requires |bs| >= 3
    ensures [bs[0], bs[1], bs[2]] + bs[3..] == bs
  {
  }

  /** Decoding undoes encoding. */
  lemma {:induction false} RoundTrip(bs: seq<byte>)
    ensures Decode(Encode(bs)) == bs
  {
    if |bs| >= 3 {
      RoundTripStep(bs);
      RoundTrip(bs[3..]);
      HeadAndTail(bs);
    } else if |bs| > 0 {
      RoundTripTail(bs);
    } else {
      assert Encode(bs) == [];
    }
  }

  /** Distinct byte strings have distinct encodings. */
  lemma EncodeInjective(xs: seq<byte>, ys: seq<byte>)
    requires Encode(xs) == Encode(ys)
    ensures xs == ys
  {
    RoundTrip(xs);
    RoundTrip(ys);
  }
}
