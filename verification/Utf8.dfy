/** `str.encode()`: UTF-8 as in section 3 of RFC 3629. Only its length reaches the quotas. */
module Utf8 {
  import opened Basics

  type Byte = b: nat | b < 256

  function EncodeChar(c: char): (bytes: seq<Byte>)
    ensures 1 <= |bytes| <= 4
    ensures |bytes| == 1 <==> c as int < 0x80
  {
    var n := c as int;
    if n < 0x80 then [n]
    else if n < 0x800 then [0xC0 + n / 0x40, 0x80 + n % 0x40]
    else if n < 0x1_0000 then [0xE0 + n / 0x1000, 0x80 + n / 0x40 % 0x40, 0x80 + n % 0x40]
    else [0xF0 + n / 0x4_0000, 0x80 + n / 0x1000 % 0x40, 0x80 + n / 0x40 % 0x40, 0x80 + n % 0x40]
  }

  function Encode(s: string): seq<Byte> {
    if s == [] then [] else EncodeChar(s[0]) + Encode(s[1..])
  }

  /** `len(s.encode())` */
  function ByteLength(s: string): nat { |Encode(s)| }

  /** A string never encodes to fewer bytes than it has characters, nor to more than four per character. */
  lemma {:induction false} LengthBounds(s: string)
    ensures |s| <= ByteLength(s) <= 4 * |s|
  {
    if s != [] { LengthBounds(s[1..]); }
  }

  /** Characters and bytes agree exactly on the strings that are pure ASCII. */
  lemma {:induction false} AsciiExactly(s: string)
    ensures ByteLength(s) == |s| <==> Ascii(s)
  {
    if s != [] {
      LengthBounds(s[1..]);
      AsciiExactly(s[1..]);
      assert s == [s[0]] + s[1..];
    }
  }

  // ---- nothing is lost, nothing is wasted ----

  /** What a byte carries beyond its marker bits. */
  function Carried(b: Byte, marker: nat): int {
    var value: int := b;
    value - marker
  }

  predicate Continues(bytes: seq<Byte>, n: nat) {
    n < |bytes| && forall i | 1 <= i <= n :: 0x80 <= bytes[i] < 0xC0
  }

  /** The first code point of a byte sequence, and how many bytes it took, by the lead byte. */
  function DecodeFirst(bytes: seq<Byte>): Option<(int, nat)> {
    if bytes == [] then None
    else if bytes[0] < 0x80 then Some((Carried(bytes[0], 0), 1))
    else if 0xC0 <= bytes[0] < 0xE0 && Continues(bytes, 1) then
      Some((Carried(bytes[0], 0xC0) * 0x40 + Carried(bytes[1], 0x80), 2))
    else if 0xE0 <= bytes[0] < 0xF0 && Continues(bytes, 2) then
      Some((Carried(bytes[0], 0xE0) * 0x1000 + Carried(bytes[1], 0x80) * 0x40 + Carried(bytes[2], 0x80), 3))
    else if 0xF0 <= bytes[0] && Continues(bytes, 3) then
      Some((Carried(bytes[0], 0xF0) * 0x4_0000 + Carried(bytes[1], 0x80) * 0x1000 + Carried(bytes[2], 0x80) * 0x40
            + Carried(bytes[3], 0x80), 4))
    else None
  }

  function Decode(bytes: seq<Byte>): Option<seq<int>>
    decreases |bytes|
  {
    if bytes == [] then Some([])
    else
      var first := DecodeFirst(bytes);
      if first.None? || first.value.1 == 0 || first.value.1 > |bytes| then None
      else
        var rest := Decode(bytes[first.value.1..]);
        if rest.None? then None else Some([first.value.0] + rest.value)
  }

  lemma FirstOfItself(c: char)
    ensures DecodeFirst(EncodeChar(c)) == Some((c as int, |EncodeChar(c)|))
  {
    var n := c as int;
    if 0x800 <= n < 0x1_0000 {
      assert n == n / 0x1000 * 0x1000 + n / 0x40 % 0x40 * 0x40 + n % 0x40;
    } else if 0x1_0000 <= n {
      assert n == n / 0x4_0000 * 0x4_0000 + n / 0x1000 % 0x40 * 0x1000 + n / 0x40 % 0x40 * 0x40 + n % 0x40;
    }
  }

  /** What follows the first character does not matter to it. */
  lemma FirstComesBack(bytes: seq<Byte>, rest: seq<Byte>)
    requires DecodeFirst(bytes).Some?
    ensures DecodeFirst(bytes + rest) == DecodeFirst(bytes)
  {
    assert forall i | 0 <= i < |bytes| :: (bytes + rest)[i] == bytes[i];
  }

  function CodePoints(s: string): seq<int> { seq(|s|, i requires 0 <= i < |s| => s[i] as int) }

  /** Every text comes back from its bytes. */
  lemma {:induction false} DecodeEncode(s: string)
    ensures Decode(Encode(s)) == Some(CodePoints(s))
  {
    if s == [] {
      assert CodePoints(s) == [];
    } else {
      var first, rest := EncodeChar(s[0]), Encode(s[1..]);
      FirstOfItself(s[0]);
      FirstComesBack(first, rest);
      assert (first + rest)[|first|..] == rest;
      DecodeEncode(s[1..]);
      assert Decode(first + rest) == Some([s[0] as int] + CodePoints(s[1..]));
      assert CodePoints(s) == [s[0] as int] + CodePoints(s[1..]);
    }
  }

  /** The code points that one, two and three bytes have room for. */
  function Room(n: nat): nat { if n == 0 then 0 else if n == 1 then 0x80 else if n == 2 then 0x800 else 0x1_0000 }

  /** No character takes more bytes than it needs. */
  lemma ShortestForm(c: char)
    ensures Room(|EncodeChar(c)| - 1) <= c as int && (|EncodeChar(c)| < 4 ==> (c as int) < Room(|EncodeChar(c)|))
  {
  }
}
