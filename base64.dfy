/**
 * Base 64 encoding with padding, as in section 4 of RFC 4648; this is what
 * PHP's `base64_encode` produces and what Basic authorisation
 * (section 2 of RFC 7617) carries.
 */
module Base64 {
  import opened Wrappers
  import opened PhpStrings
  type Sextet = v: int | 0 <= v < 64

  /** The character for a 6-bit value. */
  function Char(v: Sextet): (c: char)
    ensures c != '='
  {
    if v < 26 then ('A' as int + v) as char
    else if v < 52 then ('a' as int + (v - 26)) as char
    else if v < 62 then ('0' as int + (v - 52)) as char
    else if v == 62 then '+'
    else '/'
  }

  /** The 6-bit value of an alphabet character; `None` for anything else. */
  function Value(c: char): (r: Option<Sextet>)
    ensures r.Some? ==> Char(r.value) == c
  {
    if 'A' <= c <= 'Z' then Some(c as int - 'A' as int)
    else if 'a' <= c <= 'z' then Some(c as int - 'a' as int + 26)
    else if '0' <= c <= '9' then Some(c as int - '0' as int + 52)
    else if c == '+' then Some(62)
    else if c == '/' then Some(63)
    else None
  }

  lemma ValueOfChar(v: Sextet)
    ensures Value(Char(v)) == Some(v)
  {
  }

  /** Three bytes as four characters. */
  function EncodeGroup(b0: Byte, b1: Byte, b2: Byte): string {
    [Char(b0 / 4), Char(b0 % 4 * 16 + b1 / 16), Char(b1 % 16 * 4 + b2 / 64), Char(b2 % 64)]
  }

  /** `base64_encode`: groups of three bytes, the last group padded with '='. */
  function Encode(b: seq<Byte>): (r: string)
    ensures |r| == 4 * ((|b| + 2) / 3)
    decreases |b|
  {
    if |b| == 0 then ""
    else if |b| == 1 then [Char(b[0] / 4), Char(b[0] % 4 * 16), '=', '=']
    else if |b| == 2 then [Char(b[0] / 4), Char(b[0] % 4 * 16 + b[1] / 16), Char(b[1] % 16 * 4), '=']
    else EncodeGroup(b[0], b[1], b[2]) + Encode(b[3..])
  }

  /** The byte that a group's first two characters carry. */
  function Bytes1(a: Sextet, b: Sextet): seq<Byte> {
    [a * 4 + b / 16]
  }

  /** The two bytes that a group's first three characters carry. */
  function Bytes2(a: Sextet, b: Sextet, c: Sextet): seq<Byte> {
    Bytes1(a, b) + [b % 16 * 16 + c / 4]
  }

  /** The three bytes of a full group of four characters. */
  function Bytes3(a: Sextet, b: Sextet, c: Sextet, d: Sextet): seq<Byte> {
    Bytes2(a, b, c) + [c % 4 * 64 + d]
  }

  /** The inverse of `Encode`: `None` for text that is not base 64. */
  function Decode(s: string): Option<seq<Byte>>
    decreases |s|
  {
    if |s| == 0 then Some([])
    else if |s| < 4 then None
    else match (Value(s[0]), Value(s[1]))
      case (Some(a), Some(b)) =>
        if |s| == 4 && s[2] == '=' && s[3] == '=' then Some(Bytes1(a, b))
        else (match Value(s[2])
          case None => None
          case Some(c) =>
            if |s| == 4 && s[3] == '=' then Some(Bytes2(a, b, c))
            else (match Value(s[3])
              case None => None
              case Some(d) =>
                match Decode(s[4..])
                case None => None
                case Some(rest) => Some(Bytes3(a, b, c, d) + rest)))
      case _ => None
  }

  lemma Split16(q: int, r: int)
    requires 0 <= q && 0 <= r < 16
    ensures (q * 16 + r) / 16 == q && (q * 16 + r) % 16 == r
  {
  }

  lemma Split4(q: int, r: int)
    requires 0 <= q && 0 <= r < 4
    ensures (q * 4 + r) / 4 == q && (q * 4 + r) % 4 == r
  {
  }

  /** The arithmetic of one group undoes itself. */
  lemma GroupBits(b0: Byte, b1: Byte, b2: Byte)
    ensures b0 / 4 * 4 + (b0 % 4 * 16 + b1 / 16) / 16 == b0
    ensures (b0 % 4 * 16 + b1 / 16) % 16 * 16 + (b1 % 16 * 4 + b2 / 64) / 4 == b1
    ensures (b1 % 16 * 4 + b2 / 64) % 4 * 64 + b2 % 64 == b2
  {
    Split16(b0 % 4, b1 / 16);
    Split4(b1 % 16, b2 / 64);
  }

  lemma DecodeOneByte(b0: Byte)
    ensures Decode(Encode([b0])) == Some([b0])
  {
    GroupBits(b0, 0, 0);
    ValueOfChar(b0 / 4);
    ValueOfChar(b0 % 4 * 16);
    Split16(b0 % 4, 0);
    assert Bytes1(b0 / 4, b0 % 4 * 16) == [b0];
  }

  lemma DecodeTwoBytes(b0: Byte, b1: Byte)
    ensures Decode(Encode([b0, b1])) == Some([b0, b1])
  {
    var a, b, c := b0 / 4, b0 % 4 * 16 + b1 / 16, b1 % 16 * 4;
    GroupBits(b0, b1, 0);
    Split4(b1 % 16, 0);
    assert a * 4 + b / 16 == b0 && b % 16 * 16 + c / 4 == b1;
    ValueOfChar(a);
    ValueOfChar(b);
    ValueOfChar(c);
    var e := Encode([b0, b1]);
    assert e == [Char(a), Char(b), Char(c), '='];
    assert Bytes2(a, b, c) == [b0, b1];
  }

  lemma DecodeGroup(b0: Byte, b1: Byte, b2: Byte, rest: string, tail: seq<Byte>)
    requires Decode(rest) == Some(tail)
    ensures Decode(EncodeGroup(b0, b1, b2) + rest) == Some([b0, b1, b2] + tail)
  {
    var e := EncodeGroup(b0, b1, b2) + rest;
    assert e[4..] == rest;
    GroupBits(b0, b1, b2);
    ValueOfChar(b0 / 4);
    ValueOfChar(b0 % 4 * 16 + b1 / 16);
    ValueOfChar(b1 % 16 * 4 + b2 / 64);
    ValueOfChar(b2 % 64);
    assert Bytes3(b0 / 4, b0 % 4 * 16 + b1 / 16, b1 % 16 * 4 + b2 / 64, b2 % 64) == [b0, b1, b2];
  }

  /** Decoding an encoding gives the bytes back. */
  lemma {:induction false} DecodeEncode(b: seq<Byte>)
    ensures Decode(Encode(b)) == Some(b)
    decreases |b|
  {
    if |b| == 0 {
    } else if |b| == 1 {
      DecodeOneByte(b[0]);
      assert [b[0]] == b;
    } else if |b| == 2 {
      DecodeTwoBytes(b[0], b[1]);
      assert [b[0], b[1]] == b;
    } else {
      DecodeEncode(b[3..]);
      DecodeGroup(b[0], b[1], b[2], Encode(b[3..]), b[3..]);
      assert [b[0], b[1], b[2]] + b[3..] == b;
    }
  }

  /** Distinct byte strings have distinct encodings. */
  lemma EncodeInjective(a: seq<Byte>, b: seq<Byte>)
    requires Encode(a) == Encode(b)
    ensures a == b
  {
    DecodeEncode(a);
    DecodeEncode(b);
  }
}
