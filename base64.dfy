/**
 * Base64 with the standard alphabet and '=' padding (section 4 of RFC 4648),
 * the text form in which blob properties are stored.
 */
module Base64 {
  import opened Wrappers
  import opened PropertyTypes

  /** The alphabet index a character stands for; None for a character outside the alphabet. */
  function CharIndex(c: char): (r: Option<nat>)
    ensures r.Some? ==> r.value < 64
  {
    if 'A' <= c <= 'Z' then Some(c as int - 'A' as int)
    else if 'a' <= c <= 'z' then Some(c as int - 'a' as int + 26)
    else if '0' <= c <= '9' then Some(c as int - '0' as int + 52)
    else if c == '+' then Some(62)
    else if c == '/' then Some(63)
    else None
  }

  /** The character of alphabet index i: A-Z, a-z, 0-9, '+', '/'. */
  function IndexChar(i: nat): (c: char)
    requires i < 64
    ensures CharIndex(c) == Some(i)
    ensures c != '=' && c != '\0'
  {
    if i < 26 then ('A' as int + i) as char
    else if i < 52 then ('a' as int + (i - 26)) as char
    else if i < 62 then ('0' as int + (i - 52)) as char
    else if i == 62 then '+'
    else '/'
  }

  /** Each group of three bytes becomes four characters; a final group of one or two bytes is padded with '='. */
  function Encode(b: seq<uint8>): (s: string)
    ensures |s| == 4 * ((|b| + 2) / 3)
  {
    if |b| == 0 then ""
    else if |b| == 1 then Single(b[0])
    else if |b| == 2 then Pair(b[0], b[1])
    else
      assert (|b| - 3 + 2) / 3 + 1 == (|b| + 2) / 3;
      Quad(b[0], b[1], b[2]) + Encode(b[3..])
  }

  /** Decodes one group of four characters; only the last group may end in one or two '='. */
  function DecodeGroup(q: string, last: bool): Option<seq<uint8>>
    requires |q| == 4
  {
    var c0 := CharIndex(q[0]);
    var c1 := CharIndex(q[1]);
    var c2 := CharIndex(q[2]);
    var c3 := CharIndex(q[3]);
    if c0.None? || c1.None? then None
    else if last && q[2] == '=' && q[3] == '=' then
      Some([c0.value * 4 + c1.value / 16])
    else if c2.None? then None
    else if last && q[3] == '=' then
      Some([c0.value * 4 + c1.value / 16, c1.value % 16 * 16 + c2.value / 4])
    else if c3.None? then None
    else
      Some([c0.value * 4 + c1.value / 16, c1.value % 16 * 16 + c2.value / 4, c2.value % 4 * 64 + c3.value])
  }

  /** Decodes a whole text; None when its length is not a multiple of four or a group is malformed. */
  function Decode(s: string): Option<seq<uint8>>
    decreases |s|
  {
    if |s| == 0 then Some([])
    else if |s| < 4 then None
    else
      match DecodeGroup(s[..4], |s| == 4)
      case None => None
      case Some(g) =>
        match Decode(s[4..])
        case None => None
        case Some(rest) => Some(g + rest)
  }

  /** The encoding of a final group of one byte. */
  function Single(x: uint8): (q: string)
    ensures |q| == 4
  {
    [IndexChar(x / 4), IndexChar(x % 4 * 16), '=', '=']
  }

  /** The encoding of a final group of two bytes. */
  function Pair(x: uint8, y: uint8): (q: string)
    ensures |q| == 4
  {
    [IndexChar(x / 4), IndexChar(x % 4 * 16 + y / 16), IndexChar(y % 16 * 4), '=']
  }

  /** The encoding of the three bytes x, y, z. */
  function Quad(x: uint8, y: uint8, z: uint8): (q: string)
    ensures |q| == 4
  {
    [IndexChar(x / 4), IndexChar(x % 4 * 16 + y / 16), IndexChar(y % 16 * 4 + z / 64), IndexChar(z % 64)]
  }

  /** How the sextets of a group recombine into its bytes. */
  lemma SextetArithmetic(x: uint8, y: uint8, z: uint8)
    ensures (x % 4 * 16 + y / 16) / 16 == x % 4 && (x % 4 * 16 + y / 16) % 16 == y / 16
    ensures (y % 16 * 4 + z / 64) / 4 == y % 16 && (y % 16 * 4 + z / 64) % 4 == z / 64
    ensures x % 4 * 16 / 16 == x % 4 && y % 16 * 4 / 4 == y % 16
    ensures x / 4 * 4 + x % 4 == x && y / 16 * 16 + y % 16 == y && z / 64 * 64 + z % 64 == z
  {
  }

  lemma DecodeSingle(x: uint8)
    ensures DecodeGroup(Single(x), true) == Some([x])
  {
    var q := Single(x);
    SextetArithmetic(x, 0, 0);
    assert CharIndex(q[0]) == Some(x / 4);
    assert CharIndex(q[1]) == Some(x % 4 * 16);
    assert q[2] == '=' && q[3] == '=';
  }

  lemma DecodePair(x: uint8, y: uint8)
    ensures DecodeGroup(Pair(x, y), true) == Some([x, y])
  {
    var q := Pair(x, y);
    SextetArithmetic(x, y, 0);
    assert CharIndex(q[0]) == Some(x / 4);
    assert CharIndex(q[1]) == Some(x % 4 * 16 + y / 16);
    assert CharIndex(q[2]) == Some(y % 16 * 4);
    assert q[2] != '=' && q[3] == '=';
  }

  /** A group of four alphabet characters decodes to the three bytes its sextets spell. */
  lemma DecodeFullGroup(q: string, last: bool, i0: nat, i1: nat, i2: nat, i3: nat)
    requires |q| == 4 && i0 < 64 && i1 < 64 && i2 < 64 && i3 < 64
    requires CharIndex(q[0]) == Some(i0) && CharIndex(q[1]) == Some(i1)
    requires CharIndex(q[2]) == Some(i2) && CharIndex(q[3]) == Some(i3)
    ensures DecodeGroup(q, last) == Some([i0 * 4 + i1 / 16, i1 % 16 * 16 + i2 / 4, i2 % 4 * 64 + i3])
  {
    assert q[2] != '=' && q[3] != '=';
  }

  lemma DecodeQuad(x: uint8, y: uint8, z: uint8, last: bool)
    ensures DecodeGroup(Quad(x, y, z), last) == Some([x, y, z])
  {
    var q := Quad(x, y, z);
    var i0, i1, i2, i3 := x / 4, x % 4 * 16 + y / 16, y % 16 * 4 + z / 64, z % 64;
    assert CharIndex(q[0]) == Some(i0) && CharIndex(q[1]) == Some(i1);
    assert CharIndex(q[2]) == Some(i2) && CharIndex(q[3]) == Some(i3);
    SextetArithmetic(x, y, z);
    assert i0 * 4 + i1 / 16 == x;
    assert i1 % 16 * 16 + i2 / 4 == y;
    assert i2 % 4 * 64 + i3 == z;
    DecodeFullGroup(q, last, i0, i1, i2, i3);
  }

  lemma {:induction false} DecodeAppend(q: string, rest: string, g: seq<uint8>, r: seq<uint8>)
    requires |q| == 4 && DecodeGroup(q, rest == "") == Some(g) && Decode(rest) == Some(r)
    ensures Decode(q + rest) == Some(g + r)
  {
    assert (q + rest)[..4] == q;
    assert (q + rest)[4..] == rest;
  }

  lemma {:induction false} DecodeEncodeSingle(b: seq<uint8>)
    requires |b| == 1
    ensures Decode(Encode(b)) == Some(b)
  {
    assert Encode(b) == Single(b[0]);
    DecodeSingle(b[0]);
    DecodeAppend(Single(b[0]), "", [b[0]], []);
    assert Single(b[0]) + "" == Single(b[0]) && [b[0]] + [] == b;
  }

  lemma {:induction false} DecodeEncodePair(b: seq<uint8>)
    requires |b| == 2
    ensures Decode(Encode(b)) == Some(b)
  {
    assert Encode(b) == Pair(b[0], b[1]);
    DecodePair(b[0], b[1]);
    DecodeAppend(Pair(b[0], b[1]), "", [b[0], b[1]], []);
    assert Pair(b[0], b[1]) + "" == Pair(b[0], b[1]) && [b[0], b[1]] + [] == b;
  }

  lemma {:induction false} DecodeEncodeStep(b: seq<uint8>)
    requires |b| >= 3 && Decode(Encode(b[3..])) == Some(b[3..])
    ensures Decode(Encode(b)) == Some(b)
  {
    var rest := Encode(b[3..]);
    assert Encode(b) == Quad(b[0], b[1], b[2]) + rest;
    DecodeQuad(b[0], b[1], b[2], rest == "");
    DecodeAppend(Quad(b[0], b[1], b[2]), rest, [b[0], b[1], b[2]], b[3..]);
    assert [b[0], b[1], b[2]] + b[3..] == b;
  }

  /** Decoding an encoding gives back the original bytes, NUL and non-text bytes included. */
  lemma {:induction false} DecodeEncode(b: seq<uint8>)
    ensures Decode(Encode(b)) == Some(b)
    decreases |b|
  {
    if |b| == 1 {
      DecodeEncodeSingle(b);
    } else if |b| == 2 {
      DecodeEncodePair(b);
    } else if |b| >= 3 {
      DecodeEncode(b[3..]);
      DecodeEncodeStep(b);
    }
  }

  /** No character of an encoding is NUL, so it survives being read as a C string. */
  lemma {:induction false} EncodeNulFree(b: seq<uint8>)
    ensures forall i :: 0 <= i < |Encode(b)| ==> Encode(b)[i] != '\0'
    decreases |b|
  {
    if |b| >= 3 {
      EncodeNulFree(b[3..]);
      var q, rest := Quad(b[0], b[1], b[2]), Encode(b[3..]);
      assert Encode(b) == q + rest;
      forall i | 0 <= i < |q + rest| ensures (q + rest)[i] != '\0' {
        if i >= 4 {
          assert (q + rest)[i] == rest[i - 4];
        }
      }
    }
  }
}
