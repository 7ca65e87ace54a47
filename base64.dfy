/**
 * The "base64" encoding of section 4 of RFC 4648, as java.util.Base64 offers
 * it: `getEncoder().encodeToString` writes padded text, and
 * `getDecoder().decode` is the basic decoder, which also accepts a final unit
 * without its padding, rejects any character outside the alphabet, a final
 * unit of one character, incomplete or misplaced padding and anything after
 * the padding, and does not look at the unused low bits of the last
 * character.
 */
module Base64 {
  import opened Wrappers

  type byte = x: int | 0 <= x < 256

  /** The value of one Base64 character. */
  type index = x: int | 0 <= x < 64

  const Pad: char := '='

  predicate IsBase64Char(c: char) {
    ('A' <= c <= 'Z') || ('a' <= c <= 'z') || ('0' <= c <= '9') || c == '+' || c == '/'
  }

  /** Table 1 of RFC 4648: A-Z, a-z, 0-9, '+' and '/' for the values 0..63. */
  function CharOf(v: index): (c: char)
    ensures IsBase64Char(c)
  {
    if v < 26 then ('A' as int + v) as char
    else if v < 52 then ('a' as int + (v - 26)) as char
    else if v < 62 then ('0' as int + (v - 52)) as char
    else if v == 62 then '+'
    else '/'
  }

  function IndexOf(c: char): (v: index)
    requires IsBase64Char(c)
    ensures CharOf(v) == c
  {
    if 'A' <= c <= 'Z' then c as int - 'A' as int
    else if 'a' <= c <= 'z' then c as int - 'a' as int + 26
    else if '0' <= c <= '9' then c as int - '0' as int + 52
    else if c == '+' then 62
    else 63
  }

  lemma IndexOfCharOf(v: index)
    ensures IndexOf(CharOf(v)) == v
  {
  }

  /** The four characters for three bytes. */
  function EncodeTriple(b0: byte, b1: byte, b2: byte): string {
    [CharOf(b0 / 4), CharOf((b0 % 4) * 16 + b1 / 16), CharOf((b1 % 16) * 4 + b2 / 64), CharOf(b2 % 64)]
  }

  /** Padded Base64 text of `b`. */
  function Encode(b: seq<byte>): (s: string)
    ensures |s| == 4 * ((|b| + 2) / 3)
    ensures forall i :: 0 <= i < |s| ==> IsBase64Char(s[i]) || s[i] == Pad
    decreases |b|
  {
    if |b| == 0 then []
    else if |b| == 1 then [CharOf(b[0] / 4), CharOf((b[0] % 4) * 16), Pad, Pad]
    else if |b| == 2 then [CharOf(b[0] / 4), CharOf((b[0] % 4) * 16 + b[1] / 16), CharOf((b[1] % 16) * 4), Pad]
    else EncodeTriple(b[0], b[1], b[2]) + Encode(b[3..])
  }

  /** The bytes that the character values of one unit carry. */
  function Byte0(v0: index, v1: index): byte { v0 * 4 + v1 / 16 }
  function Byte1(v1: index, v2: index): byte { (v1 % 16) * 16 + v2 / 4 }
  function Byte2(v2: index, v3: index): byte { (v2 % 4) * 64 + v3 }

  /** Number of padding characters that end `s`. */
  function Padding(s: string): nat {
    if |s| >= 2 && s[|s| - 1] == Pad && s[|s| - 2] == Pad then 2
    else if |s| >= 1 && s[|s| - 1] == Pad then 1
    else 0
  }

  /** java.util.Base64's basic decoder; `None` where it throws IllegalArgumentException. */
  function Decode(s: string): (r: Option<seq<byte>>)
    ensures r.Some? ==> |r.value| == 3 * |s| / 4 - Padding(s)
    decreases |s|
  {
    if |s| == 0 then Some([])
    else if !IsBase64Char(s[0]) || |s| == 1 || !IsBase64Char(s[1]) then None
    else
      var v0, v1 := IndexOf(s[0]), IndexOf(s[1]);
      if |s| == 2 then Some([Byte0(v0, v1)])
      else if s[2] == Pad then
        if |s| == 4 && s[3] == Pad then Some([Byte0(v0, v1)]) else None
      else if !IsBase64Char(s[2]) then None
      else
        var v2 := IndexOf(s[2]);
        if |s| == 3 then Some([Byte0(v0, v1), Byte1(v1, v2)])
        else if s[3] == Pad then
          if |s| == 4 then Some([Byte0(v0, v1), Byte1(v1, v2)]) else None
        else if !IsBase64Char(s[3]) then None
        else
          var v3 := IndexOf(s[3]);
          match Decode(s[4..])
          case None => None
          case Some(rest) => Some([Byte0(v0, v1), Byte1(v1, v2), Byte2(v2, v3)] + rest)
  }

  /** The basic decoder on the edge cases of length and padding. */
  lemma DecoderEdgeCases()
    ensures Decode("A").None? && Decode("A=").None? && Decode("AB=").None? && Decode("ABCD=").None?
    ensures Decode("ABC==").None? && Decode("AB=A").None? && Decode("ABCDA").None?
    ensures Decode("AB") == Some([0]) && Decode("AB==") == Some([0])
    ensures Decode("ABC") == Some([0, 16]) && Decode("ABC=") == Some([0, 16])
  {
  }

  /** Text longer than one unit is rejected when what follows its first unit is. */
  lemma DecodeRejectsAfterUnit(s: string)
    requires |s| > 4 && Decode(s[4..]).None?
    ensures Decode(s).None?
  {
  }

  /** A character that is neither of the alphabet nor padding is rejected wherever it stands. */
  lemma {:induction false} DecodeRejectsForeignChar(s: string, i: nat)
    requires i < |s| && !IsBase64Char(s[i]) && s[i] != Pad
    ensures Decode(s).None?
    decreases |s|
  {
    if i >= 4 {
      DecodeRejectsForeignChar(s[4..], i - 4);
      DecodeRejectsAfterUnit(s);
    }
  }

  /** Text that leaves one character after its last full unit is rejected. */
  lemma {:induction false} DecodeRejectsLoneChar(s: string)
    requires |s| % 4 == 1
    ensures Decode(s).None?
    decreases |s|
  {
    if |s| > 4 {
      DecodeRejectsLoneChar(s[4..]);
      DecodeRejectsAfterUnit(s);
    }
  }

  lemma TripleRoundTrip(b0: byte, b1: byte, b2: byte)
    ensures var v0, v1, v2, v3 := b0 / 4, (b0 % 4) * 16 + b1 / 16, (b1 % 16) * 4 + b2 / 64, b2 % 64;
            Byte0(v0, v1) == b0 && Byte1(v1, v2) == b1 && Byte2(v2, v3) == b2
  {
  }

  lemma PairArithmetic(b0: byte, b1: byte)
    ensures Byte0(b0 / 4, (b0 % 4) * 16 + b1 / 16) == b0
    ensures Byte1((b0 % 4) * 16 + b1 / 16, (b1 % 16) * 4) == b1
  {
  }

  lemma SingleArithmetic(b0: byte)
    ensures Byte0(b0 / 4, (b0 % 4) * 16) == b0
  {
  }

  lemma OneByteRoundTrip(b: seq<byte>)
    requires |b| == 1
    ensures Decode(Encode(b)) == Some(b)
  {
    var s, v0, v1 := Encode(b), b[0] / 4, (b[0] % 4) * 16;
    IndexOfCharOf(v0);
    IndexOfCharOf(v1);
    SingleArithmetic(b[0]);
    assert s[2] == Pad && s[3] == Pad;
    assert Decode(s) == Some([Byte0(v0, v1)]);
    assert b == [Byte0(v0, v1)];
  }

  lemma TwoBytesRoundTrip(b: seq<byte>)
    requires |b| == 2
    ensures Decode(Encode(b)) == Some(b)
  {
    var s, v0, v1, v2 := Encode(b), b[0] / 4, (b[0] % 4) * 16 + b[1] / 16, (b[1] % 16) * 4;
    IndexOfCharOf(v0);
    IndexOfCharOf(v1);
    IndexOfCharOf(v2);
    PairArithmetic(b[0], b[1]);
    assert s == [CharOf(v0), CharOf(v1), CharOf(v2), Pad];
    assert s[2] != Pad && s[3] == Pad;
    assert Decode(s) == Some([Byte0(v0, v1), Byte1(v1, v2)]);
    assert b == [Byte0(v0, v1), Byte1(v1, v2)];
  }

  /** A unit of four alphabet characters decodes to three bytes, followed by the rest. */
  lemma DecodeFullUnit(u: string, rest: string)
    requires |u| == 4 && IsBase64Char(u[0]) && IsBase64Char(u[1]) && IsBase64Char(u[2]) && IsBase64Char(u[3])
    ensures Decode(u + rest) == match Decode(rest)
                                case None => None
                                case Some(r) => Some([Byte0(IndexOf(u[0]), IndexOf(u[1])),
                                                      Byte1(IndexOf(u[1]), IndexOf(u[2])),
                                                      Byte2(IndexOf(u[2]), IndexOf(u[3]))] + r)
  {
  }

  /** One full unit: decoding the four characters of three bytes and then the rest. */
  lemma TripleStep(b: seq<byte>)
    requires |b| >= 3
    ensures Decode(Encode(b)) == match Decode(Encode(b[3..]))
                                 case None => None
                                 case Some(rest) => Some([b[0], b[1], b[2]] + rest)
  {
    var v0, v1, v2, v3 := b[0] / 4, (b[0] % 4) * 16 + b[1] / 16, (b[1] % 16) * 4 + b[2] / 64, b[2] % 64;
    var u := EncodeTriple(b[0], b[1], b[2]);
    assert Encode(b) == u + Encode(b[3..]);
    assert u[0] == CharOf(v0) && u[1] == CharOf(v1) && u[2] == CharOf(v2) && u[3] == CharOf(v3);
    DecodeFullUnit(u, Encode(b[3..]));
    IndexOfCharOf(v0);
    IndexOfCharOf(v1);
    IndexOfCharOf(v2);
    IndexOfCharOf(v3);
    assert Byte0(v0, v1) == b[0] && Byte1(v1, v2) == b[1] && Byte2(v2, v3) == b[2] by {
      TripleRoundTrip(b[0], b[1], b[2]);
    }
  }

  lemma SplitUnit(b: seq<byte>)
    requires |b| >= 3
    ensures [b[0], b[1], b[2]] + b[3..] == b
  {
  }

  /** Decoding undoes encoding: the basis of the private-key round trip. */
  lemma {:induction false} DecodeEncode(b: seq<byte>)
    ensures Decode(Encode(b)) == Some(b)
    decreases |b|
  {
    if |b| == 1 {
      OneByteRoundTrip(b);
    } else if |b| == 2 {
      TwoBytesRoundTrip(b);
    } else if |b| >= 3 {
      TripleStep(b);
      DecodeEncode(b[3..]);
      SplitUnit(b);
    }
  }
}
