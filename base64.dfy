/**
 * The base 64 encoding of section 4 of RFC 4648 (alphabet `A-Z a-z 0-9 + /`,
 * `=` padding), as the browser's `btoa` applies it to a string whose every
 * character is a single byte, and the decoding that inverts it.
 */
module Base64 {
  import opened Wrappers

  type Byte = b: int | 0 <= b < 256
  type Sextet = d: int | 0 <= d < 64

  predicate IsAlphabetChar(c: char)
  {
    'A' <= c <= 'Z' || 'a' <= c <= 'z' || '0' <= c <= '9' || c == '+' || c == '/'
  }

  /** Table 1 of the RFC: the character for a 6-bit value. */
  function Char(d: Sextet): (c: char)
    ensures IsAlphabetChar(c) && Value(c) == d
  {
    if d < 26 then ('A' as int + d) as char
    else if d < 52 then ('a' as int + (d - 26)) as char
    else if d < 62 then ('0' as int + (d - 52)) as char
    else if d == 62 then '+'
    else '/'
  }

  /** The 6-bit value of an alphabet character: the inverse of `Char`. */
  function Value(c: char): (d: Sextet)
    requires IsAlphabetChar(c)
  {
    if 'A' <= c <= 'Z' then c as int - 'A' as int
    else if 'a' <= c <= 'z' then c as int - 'a' as int + 26
    else if '0' <= c <= '9' then c as int - '0' as int + 52
    else if c == '+' then 62
    else 63
  }

  /** Characters that may appear in an encoding: the alphabet and the pad. */
  predicate IsEncodingChar(c: char)
  {
    IsAlphabetChar(c) || c == '='
  }

  /** The four characters of a full group of three bytes. */
  function FullGroup(b0: Byte, b1: Byte, b2: Byte): (r: string)
    ensures |r| == 4 && forall i :: 0 <= i < 4 ==> IsAlphabetChar(r[i])
  {
    [Char(b0 / 4), Char((b0 % 4) * 16 + b1 / 16), Char((b1 % 16) * 4 + b2 / 64), Char(b2 % 64)]
  }

  /** The padded group of a final single byte. */
  function OneByteGroup(b0: Byte): (r: string)
    ensures |r| == 4 && forall i :: 0 <= i < 4 ==> IsEncodingChar(r[i])
  {
    [Char(b0 / 4), Char((b0 % 4) * 16), '=', '=']
  }

  /** The padded group of two final bytes. */
  function TwoByteGroup(b0: Byte, b1: Byte): (r: string)
    ensures |r| == 4 && forall i :: 0 <= i < 4 ==> IsEncodingChar(r[i])
  {
    [Char(b0 / 4), Char((b0 % 4) * 16 + b1 / 16), Char((b1 % 16) * 4), '=']
  }

  function Encode(s: seq<Byte>): (r: string)
    ensures |s| > 0 ==> |r| >= 4
    ensures forall i :: 0 <= i < |r| ==> IsEncodingChar(r[i])
  {
    if |s| == 0 then []
    else if |s| == 1 then OneByteGroup(s[0])
    else if |s| == 2 then TwoByteGroup(s[0], s[1])
    else FullGroup(s[0], s[1], s[2]) + Encode(s[3..])
  }

  /** Every started group of three bytes becomes four characters. */
  lemma {:induction false} EncodeLength(s: seq<Byte>)
    ensures |Encode(s)| == 4 * ((|s| + 2) / 3)
  {
    if |s| > 2 {
      EncodeLength(s[3..]);
      assert (|s| + 2) / 3 == (|s[3..]| + 2) / 3 + 1;
    }
  }

  /** 24 bytes encode to 32 characters, which start the encoding of anything that follows them. */
  lemma EncodeOf24ThenRest(head: seq<Byte>, tail: seq<Byte>)
    requires |head| == 24
    ensures |Encode(head)| == 32 && |Encode(head + tail)| >= 32
    ensures Encode(head + tail)[..32] == Encode(head)
  {
    EncodeLength(head);
    EncodeAppend(head, tail);
    PrefixOfAppend(Encode(head), Encode(tail));
  }

  lemma PrefixOfAppend(x: string, y: string)
    ensures (x + y)[..|x|] == x
  {
  }

  /** The first 32 characters of an encoding are the encoding of the first 24 bytes. */
  lemma EncodePrefix(b: seq<Byte>)
    requires |b| >= 24
    ensures |Encode(b)| >= 32 && Encode(b)[..32] == Encode(b[..24])
  {
    assert b == b[..24] + b[24..];
    EncodeOf24ThenRest(b[..24], b[24..]);
  }

  /** Decodes one group of four characters; `=` may only pad the end of a group. */
  function DecodeGroup(q: string): Option<seq<Byte>>
    requires |q| == 4
  {
    if !IsAlphabetChar(q[0]) || !IsAlphabetChar(q[1]) then None
    else
      var a, b := Value(q[0]), Value(q[1]);
      if q[2] == '=' && q[3] == '=' then
        Some([a * 4 + b / 16])
      else if IsAlphabetChar(q[2]) && q[3] == '=' then
        var c := Value(q[2]);
        Some([a * 4 + b / 16, (b % 16) * 16 + c / 4])
      else if IsAlphabetChar(q[2]) && IsAlphabetChar(q[3]) then
        var c, d := Value(q[2]), Value(q[3]);
        Some([a * 4 + b / 16, (b % 16) * 16 + c / 4, (c % 4) * 64 + d])
      else None
  }

  /** Decodes a padded encoding; padding is accepted in the last group only. */
  function Decode(t: string): Option<seq<Byte>>
  {
    if |t| == 0 then Some([])
    else if |t| < 4 then None
    else match DecodeGroup(t[..4])
      case None => None
      case Some(bytes) =>
        if |t| == 4 then Some(bytes)
        else if |bytes| < 3 then None
        else match Decode(t[4..])
          case None => None
          case Some(rest) => Some(bytes + rest)
  }

  lemma FullGroupRoundTrip(b0: Byte, b1: Byte, b2: Byte)
    ensures (b0 / 4) * 4 + ((b0 % 4) * 16 + b1 / 16) / 16 == b0
    ensures (((b0 % 4) * 16 + b1 / 16) % 16) * 16 + ((b1 % 16) * 4 + b2 / 64) / 4 == b1
    ensures (((b1 % 16) * 4 + b2 / 64) % 4) * 64 + b2 % 64 == b2
  {
  }

  /** The group of one byte decodes back to it. */
  lemma OneByteGroupDecodes(b0: Byte)
    ensures DecodeGroup(OneByteGroup(b0)) == Some([b0])
  {
    var a, b := b0 / 4, (b0 % 4) * 16;
    assert a * 4 + b / 16 == b0;
  }

  /** The group of two bytes decodes back to them. */
  lemma TwoByteGroupDecodes(b0: Byte, b1: Byte)
    ensures DecodeGroup(TwoByteGroup(b0, b1)) == Some([b0, b1])
  {
    var a, b, c := b0 / 4, (b0 % 4) * 16 + b1 / 16, (b1 % 16) * 4;
    FullGroupRoundTrip(b0, b1, 0);
  }

  /** The group of three bytes decodes back to them. */
  lemma ThreeByteGroupDecodes(b0: Byte, b1: Byte, b2: Byte)
    ensures DecodeGroup(FullGroup(b0, b1, b2)) == Some([b0, b1, b2])
  {
    var a, b, c, d := b0 / 4, (b0 % 4) * 16 + b1 / 16, (b1 % 16) * 4 + b2 / 64, b2 % 64;
    FullGroupRoundTrip(b0, b1, b2);
  }

  /** A lone group decodes as that group. */
  lemma DecodeLastGroup(q: string)
    requires |q| == 4
    ensures Decode(q) == DecodeGroup(q)
  {
    assert q[..4] == q;
  }

  /** A full group followed by more groups decodes to the group's bytes then the rest's. */
  lemma DecodeFullGroupThenRest(q: string, rest: string, bytes: seq<Byte>)
    requires |q| == 4 && |rest| > 0 && DecodeGroup(q) == Some(bytes) && |bytes| == 3
    ensures Decode(q + rest) == (if Decode(rest).Some? then Some(bytes + Decode(rest).value) else None)
  {
    var t := q + rest;
    assert t[..4] == q && t[4..] == rest;
  }

  /** A single byte is one padded group, which decodes back to it. */
  lemma DecodeEncodeOneByte(b0: Byte)
    ensures Decode(Encode([b0])) == Some([b0])
  {
    assert Encode([b0]) == OneByteGroup(b0);
    OneByteGroupDecodes(b0);
    DecodeLastGroup(OneByteGroup(b0));
  }

  /** Two bytes are one padded group, which decodes back to them. */
  lemma DecodeEncodeTwoBytes(b0: Byte, b1: Byte)
    ensures Decode(Encode([b0, b1])) == Some([b0, b1])
  {
    assert Encode([b0, b1]) == TwoByteGroup(b0, b1);
    TwoByteGroupDecodes(b0, b1);
    DecodeLastGroup(TwoByteGroup(b0, b1));
  }

  /** Three bytes then the rest encode as their full group then the rest's encoding. */
  lemma EncodeFullGroupThenRest(b0: Byte, b1: Byte, b2: Byte, rest: seq<Byte>)
    ensures Encode([b0, b1, b2] + rest) == FullGroup(b0, b1, b2) + Encode(rest)
  {
    var s := [b0, b1, b2] + rest;
    assert s[0] == b0 && s[1] == b1 && s[2] == b2 && s[3..] == rest;
  }

  /** One full group in front of an input that round-trips. */
  lemma DecodeEncodeStep(b0: Byte, b1: Byte, b2: Byte, rest: seq<Byte>)
    requires Decode(Encode(rest)) == Some(rest)
    ensures Decode(Encode([b0, b1, b2] + rest)) == Some([b0, b1, b2] + rest)
  {
    var q := FullGroup(b0, b1, b2);
    ThreeByteGroupDecodes(b0, b1, b2);
    EncodeFullGroupThenRest(b0, b1, b2, rest);
    if rest == [] {
      assert q + Encode(rest) == q;
      DecodeLastGroup(q);
      assert [b0, b1, b2] + rest == [b0, b1, b2];
    } else {
      DecodeFullGroupThenRest(q, Encode(rest), [b0, b1, b2]);
    }
  }

  /** An input of one or two bytes round-trips. */
  lemma DecodeEncodeShort(s: seq<Byte>)
    requires 0 < |s| <= 2
    ensures Decode(Encode(s)) == Some(s)
  {
    if |s| == 1 {
      DecodeEncodeOneByte(s[0]);
      assert s == [s[0]];
    } else {
      DecodeEncodeTwoBytes(s[0], s[1]);
      assert s == [s[0], s[1]];
    }
  }

  /** An input of three bytes or more round-trips when the input after its first group does. */
  lemma DecodeEncodeLong(s: seq<Byte>)
    requires |s| > 2 && Decode(Encode(s[3..])) == Some(s[3..])
    ensures Decode(Encode(s)) == Some(s)
  {
    DecodeEncodeStep(s[0], s[1], s[2], s[3..]);
    FirstGroupThenRest(s);
  }

  lemma FirstGroupThenRest(s: seq<Byte>)
    requires |s| > 2
    ensures s == [s[0], s[1], s[2]] + s[3..]
  {
  }

  /** Decoding undoes encoding: `btoa`'s output determines its input. */
  lemma {:induction false} DecodeEncode(s: seq<Byte>)
    ensures Decode(Encode(s)) == Some(s)
  {
    if 0 < |s| <= 2 {
      DecodeEncodeShort(s);
    } else if |s| > 2 {
      DecodeEncode(s[3..]);
      DecodeEncodeLong(s);
    }
  }

  /**
   * Every three input bytes become four output characters independently of
   * the rest, so an input cut at a multiple of three encodes piecewise.
   */
  lemma {:induction false} EncodeAppend(a: seq<Byte>, b: seq<Byte>)
    requires |a| % 3 == 0
    ensures Encode(a + b) == Encode(a) + Encode(b)
  {
    if |a| == 0 {
      assert a + b == b;
    } else {
      assert (a + b)[3..] == a[3..] + b;
      EncodeAppend(a[3..], b);
    }
  }
}
