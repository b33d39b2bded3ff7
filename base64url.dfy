/**
  The base64url text of a byte string as Node's `Buffer.toString('base64url')` writes
  it: the URL- and filename-safe alphabet of section 5 of RFC 4648, with the padding
  left off. `Decode` is its inverse, used to show that no two byte strings share a
  token.
 */
module Base64Url {
  import opened Wrappers

  type Byte = x: int | 0 <= x < 256
  type Sextet = x: int | 0 <= x < 64

  /** The characters of the URL- and filename-safe alphabet. */
  predicate IsUrlSafe(c: char)
  {
    ('A' <= c <= 'Z') || ('a' <= c <= 'z') || ('0' <= c <= '9') || c == '-' || c == '_'
  }

  /** Value i of the alphabet: A-Z, a-z, 0-9, then '-' and '_'. */
  function Symbol(i: Sextet): (c: char)
    ensures IsUrlSafe(c)
  {
    if i < 26 then ('A' as int + i) as char
    else if i < 52 then ('a' as int + (i - 26)) as char
    else if i < 62 then ('0' as int + (i - 52)) as char
    else if i == 62 then '-'
    else '_'
  }

  function Value(c: char): Option<Sextet>
  {
    if 'A' <= c <= 'Z' then Some(c as int - 'A' as int)
    else if 'a' <= c <= 'z' then Some(c as int - 'a' as int + 26)
    else if '0' <= c <= '9' then Some(c as int - '0' as int + 52)
    else if c == '-' then Some(62)
    else if c == '_' then Some(63)
    else None
  }

  lemma ValueOfSymbol(i: Sextet)
    ensures Value(Symbol(i)) == Some(i)
  {
  }

  /** `bytes.toString('base64url')`: every three bytes become four symbols, and a
      final one or two bytes become two or three symbols. */
  function Encode(b: seq<Byte>): (s: string)
    ensures |s| == (4 * |b| + 2) / 3
    ensures forall i :: 0 <= i < |s| ==> IsUrlSafe(s[i])
  {
    if |b| == 0 then ""
    else if |b| == 1 then
      [Symbol(b[0] / 4), Symbol((b[0] % 4) * 16)]
    else if |b| == 2 then
      [Symbol(b[0] / 4), Symbol((b[0] % 4) * 16 + b[1] / 16), Symbol((b[1] % 16) * 4)]
    else
      [Symbol(b[0] / 4), Symbol((b[0] % 4) * 16 + b[1] / 16),
       Symbol((b[1] % 16) * 4 + b[2] / 64), Symbol(b[2] % 64)] + Encode(b[3..])
  }

  /** The byte spread over the first two symbols of a group. */
  function HighByte(a: Sextet, b: Sextet): Byte
  {
    (a as int) * 4 + (b as int) / 16
  }

  /** The byte spread over the second and third symbols of a group. */
  function MiddleByte(b: Sextet, c: Sextet): Byte
  {
    ((b as int) % 16) * 16 + (c as int) / 4
  }

  /** The byte spread over the last two symbols of a group. */
  function LowByte(c: Sextet, d: Sextet): Byte
  {
    ((c as int) % 4) * 64 + (d as int)
  }

  /** The inverse of `Encode` on unpadded text; a length of 1 modulo 4 or a character
      outside the alphabet is rejected. */
  function Decode(s: string): Option<seq<Byte>>
  {
    if |s| == 0 then Some([])
    else if |s| == 1 then None
    else if |s| == 2 then
      match (Value(s[0]), Value(s[1]))
      case (Some(a), Some(b)) => Some([HighByte(a, b)])
      case _ => None
    else if |s| == 3 then
      match (Value(s[0]), Value(s[1]), Value(s[2]))
      case (Some(a), Some(b), Some(c)) => Some([HighByte(a, b), MiddleByte(b, c)])
      case _ => None
    else
      match (Value(s[0]), Value(s[1]), Value(s[2]), Value(s[3]), Decode(s[4..]))
      case (Some(a), Some(b), Some(c), Some(d), Some(rest)) =>
        Some([HighByte(a, b), MiddleByte(b, c), LowByte(c, d)] + rest)
      case _ => None
  }

  lemma SplitFirst(x: Byte)
    ensures HighByte(x / 4, (x % 4) * 16) == x
  {
  }

  lemma SplitPair(x: Byte, y: Byte)
    ensures HighByte(x / 4, (x % 4) * 16 + y / 16) == x
    ensures MiddleByte((x % 4) * 16 + y / 16, (y % 16) * 4) == y
  {
  }

  lemma SplitTriple(x: Byte, y: Byte, z: Byte)
    ensures HighByte(x / 4, (x % 4) * 16 + y / 16) == x
    ensures MiddleByte((x % 4) * 16 + y / 16, (y % 16) * 4 + z / 64) == y
    ensures LowByte((y % 16) * 4 + z / 64, z % 64) == z
  {
  }

  lemma DecodeOne(x: Byte)
    ensures Decode(Encode([x])) == Some([x])
  {
    ValueOfSymbol(x / 4);
    ValueOfSymbol((x % 4) * 16);
    SplitFirst(x);
  }

  lemma DecodeTwo(x: Byte, y: Byte)
    ensures Decode(Encode([x, y])) == Some([x, y])
  {
    var s := Encode([x, y]);
    var a, b, c := x / 4, (x % 4) * 16 + y / 16, (y % 16) * 4;
    assert s == [Symbol(a), Symbol(b), Symbol(c)];
    ValueOfSymbol(a);
    ValueOfSymbol(b);
    ValueOfSymbol(c);
    SplitPair(x, y);
  }

  lemma DecodeFour(p: Sextet, q: Sextet, r: Sextet, t: Sextet, rest: string, tail: seq<Byte>)
    requires Decode(rest) == Some(tail)
    ensures Decode([Symbol(p), Symbol(q), Symbol(r), Symbol(t)] + rest)
         == Some([HighByte(p, q), MiddleByte(q, r), LowByte(r, t)] + tail)
  {
    var s := [Symbol(p), Symbol(q), Symbol(r), Symbol(t)] + rest;
    assert s[4..] == rest;
    ValueOfSymbol(p);
    ValueOfSymbol(q);
    ValueOfSymbol(r);
    ValueOfSymbol(t);
  }

  lemma EncodeGroup(x: Byte, y: Byte, z: Byte, tail: seq<Byte>)
    ensures Encode([x, y, z] + tail)
         == [Symbol(x / 4), Symbol((x % 4) * 16 + y / 16), Symbol((y % 16) * 4 + z / 64), Symbol(z % 64)]
            + Encode(tail)
  {
    assert ([x, y, z] + tail)[3..] == tail;
  }

  lemma DecodeGroup(x: Byte, y: Byte, z: Byte, tail: seq<Byte>)
    requires Decode(Encode(tail)) == Some(tail)
    ensures Decode(Encode([x, y, z] + tail)) == Some([x, y, z] + tail)
  {
    var p, q, r, t := x / 4, (x % 4) * 16 + y / 16, (y % 16) * 4 + z / 64, z % 64;
    EncodeGroup(x, y, z, tail);
    DecodeFour(p, q, r, t, Encode(tail), tail);
    SplitTriple(x, y, z);
    assert [HighByte(p, q), MiddleByte(q, r), LowByte(r, t)] == [x, y, z];
  }

  /** Decoding the encoding gives the bytes back. */
  lemma {:induction false} DecodeEncode(b: seq<Byte>)
    ensures Decode(Encode(b)) == Some(b)
    decreases |b|
  {
    if |b| < 3 {
      DecodeEncodeShort(b);
    } else {
      DecodeEncode(b[3..]);
      assert b == [b[0], b[1], b[2]] + b[3..];
      DecodeGroup(b[0], b[1], b[2], b[3..]);
    }
  }

  /** The round trip for a final group of fewer than three bytes. */
  lemma DecodeEncodeShort(b: seq<Byte>)
    requires |b| < 3
    ensures Decode(Encode(b)) == Some(b)
  {
    if |b| == 1 {
      assert b == [b[0]];
      DecodeOne(b[0]);
    } else if |b| == 2 {
      assert b == [b[0], b[1]];
      DecodeTwo(b[0], b[1]);
    }
  }

  /** Different bytes give different text. */
  lemma EncodeInjective(a: seq<Byte>, b: seq<Byte>)
    requires Encode(a) == Encode(b)
    ensures a == b
  {
    DecodeEncode(a);
    DecodeEncode(b);
  }
}
