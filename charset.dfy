/**
 * Bytes seen as text and text as bytes.  `new String(bytes)`,
 * `String.getBytes()` and the Base64 decoder reading a ByteBuffer convert
 * between the two; the model takes one character per byte, with the byte's
 * value as its code (ISO-8859-1), and '?' for a character that has no byte.
 */
module Charset {
  import Base64

  type byte = Base64.byte

  const Unmappable: byte := '?' as int

  /** A character that ISO-8859-1 encodes. */
  predicate IsLatin1(c: char) {
    c as int < 256
  }

  function FromBytes(b: seq<byte>): (s: string)
    ensures |s| == |b|
    ensures forall i :: 0 <= i < |s| ==> IsLatin1(s[i])
  {
    seq(|b|, i requires 0 <= i < |b| => b[i] as char)
  }

  function ToBytes(s: string): (b: seq<byte>)
    ensures |b| == |s|
    ensures forall i :: 0 <= i < |s| ==> (IsLatin1(s[i]) ==> b[i] as char == s[i]) && (!IsLatin1(s[i]) ==> b[i] == Unmappable)
  {
    seq(|s|, i requires 0 <= i < |s| => if IsLatin1(s[i]) then s[i] as int else Unmappable)
  }

  /** Decoding then encoding gives back every byte sequence. */
  lemma ToBytesFromBytes(b: seq<byte>)
    ensures ToBytes(FromBytes(b)) == b
  {
    var s := FromBytes(b);
    assert forall i :: 0 <= i < |b| ==> ToBytes(s)[i] == b[i];
  }

  /** Encoding then decoding gives back exactly the texts of one-byte characters. */
  lemma FromBytesToBytes(s: string)
    ensures FromBytes(ToBytes(s)) == s <==> forall i :: 0 <= i < |s| ==> IsLatin1(s[i])
  {
    if forall i :: 0 <= i < |s| ==> IsLatin1(s[i]) {
      assert forall i :: 0 <= i < |s| ==> FromBytes(ToBytes(s))[i] == s[i];
    }
  }
}
