/** base64url as the state cookie uses it: sections 4 and 5 of RFC 4648 to write, CPython's lenient
    reader to read, and padding that is stripped on the way out and computed on the way in. */
module Base64Url {
  import opened Basics

  type Byte = b: int | 0 <= b <= 255

  type Sextet = v: int | 0 <= v < 64

  function Symbol(v: Sextet): (c: char)
    ensures Value(c) == Some(v) && c != '='
  {
    if v < 26 then 'A' + v as char
    else if v < 52 then 'a' + (v - 26) as char
    else if v < 62 then '0' + (v - 52) as char
    else if v == 62 then '-'
    else '_'
  }

  /** The reader takes both alphabets: '-' and '_' are translated, '+' and '/' read as they are. */
  function Value(c: char): Option<Sextet> {
    if 'A' <= c <= 'Z' then Some(c as int - 'A' as int)
    else if 'a' <= c <= 'z' then Some(c as int - 'a' as int + 26)
    else if '0' <= c <= '9' then Some(c as int - '0' as int + 52)
    else if c == '-' || c == '+' then Some(62)
    else if c == '_' || c == '/' then Some(63)
    else None
  }

  /** The four sextets of a group of three bytes. */
  function S0(a: Byte): Sextet { a / 4 }

  function S1(a: Byte, b: Byte): Sextet { a % 4 * 16 + b / 16 }

  function S2(b: Byte, c: Byte): Sextet { b % 16 * 4 + c / 64 }

  function S3(c: Byte): Sextet { c % 64 }

  /** They are its 24 bits, the most significant first. */
  lemma SextetsExactly(a: Byte, b: Byte, c: Byte)
    ensures S0(a) * 0x4_0000 + S1(a, b) * 0x1000 + S2(b, c) * 0x40 + S3(c) == a * 0x1_0000 + b * 0x100 + c
  {
  }

  function Group(a: Byte, b: Byte, c: Byte): (symbols: string)
    ensures |symbols| == 4 && '=' !in symbols && Ascii(symbols)
  {
    [Symbol(S0(a)), Symbol(S1(a, b)), Symbol(S2(b, c)), Symbol(S3(c))]
  }

  /** `base64.urlsafe_b64encode` */
  function Encode(p: seq<Byte>): string {
    if |p| == 0 then ""
    else if |p| == 1 then [Symbol(S0(p[0])), Symbol(S1(p[0], 0)), '=', '=']
    else if |p| == 2 then [Symbol(S0(p[0])), Symbol(S1(p[0], p[1])), Symbol(S2(p[1], 0)), '=']
    else Group(p[0], p[1], p[2]) + Encode(p[3..])
  }

  /** Three groups that use every kind of symbol: two from a vector of section 10 of RFC 4648 ("foobar"), and one of
      the two characters in which its alphabets differ. */
  lemma KnownGroups()
    ensures Group(102, 111, 111) == "Zm9v"
    ensures Group(98, 97, 114) == "YmFy"
    ensures Group(0xFB, 0xEF, 0xFF) == "--__"
  {
  }

  /** The vector itself. */
  lemma KnownAnswer()
    ensures Encode([102, 111, 111, 98, 97, 114]) == "Zm9vYmFy"
  {
    KnownGroups();
    var p: seq<Byte> := [102, 111, 111, 98, 97, 114];
    assert p[3..] == [98, 97, 114] && p[3..][3..] == [];
    assert Encode(p[3..]) == Group(98, 97, 114) + Encode(p[3..][3..]);
  }

  /** `.rstrip("=")` */
  function StripPadding(s: string): string {
    if s != [] && s[|s| - 1] == '=' then StripPadding(s[..|s| - 1]) else s
  }

  function Pads(n: nat): string {
    if n == 0 then "" else Pads(n - 1) + "="
  }

  /** `-len(body) % 4`: what fills the last group of four. */
  function PadCount(n: nat): (k: nat)
    ensures k < 4 && (n + k) % 4 == 0
  {
    var len: int := n;
    -len % 4
  }

  /** `body + "=" * (-len(body) % 4)` */
  function RestorePadding(body: string): string { body + Pads(PadCount(|body|)) }

  function Cons(b: Byte, rest: Option<seq<Byte>>): Option<seq<Byte>> {
    if rest.Some? then Some([b] + rest.value) else None
  }

  /** `binascii.a2b_base64` outside strict mode. `quad` data characters of the current group have
      been read and `left` holds their leftover bits; `pads` padding characters follow them. Other
      characters are skipped, enough padding ends the input, and a group cut short is an error. */
  function Decode(s: string, quad: int, left: int, pads: nat): Option<seq<Byte>>
    requires quad == 0 || (quad == 1 && 0 <= left < 64) || (quad == 2 && 0 <= left < 16) || (quad == 3 && 0 <= left < 4)
    decreases |s|
  {
    if s == [] then if quad == 0 then Some([]) else None
    else if s[0] == '=' then
      if quad >= 2 && quad + pads + 1 >= 4 then Some([])
      else Decode(s[1..], quad, left, if quad >= 2 then pads + 1 else pads)
    else if Value(s[0]).None? then Decode(s[1..], quad, left, pads)
    else
      var v := Value(s[0]).value;
      match quad
      case 0 => Decode(s[1..], 1, v, 0)
      case 1 => Cons(left * 4 + v / 16, Decode(s[1..], 2, v % 16, 0))
      case 2 => Cons(left * 16 + v / 4, Decode(s[1..], 3, v % 4, 0))
      case _ => Cons(left * 64 + v, Decode(s[1..], 0, 0, 0))
  }

  /** `base64.urlsafe_b64decode`: text outside ASCII is refused before anything is decoded. */
  function UrlsafeDecode(s: string): Option<seq<Byte>> {
    if Ascii(s) then Decode(s, 0, 0, 0) else None
  }

  // ---- decoding what was encoded ----

  lemma Take(v: Sextet, rest: string, quad: int, left: int, pads: nat)
    requires quad == 0 || (quad == 1 && 0 <= left < 64) || (quad == 2 && 0 <= left < 16) || (quad == 3 && 0 <= left < 4)
    ensures Decode([Symbol(v)] + rest, quad, left, pads) ==
            match quad
            case 0 => Decode(rest, 1, v, 0)
            case 1 => Cons(left * 4 + v / 16, Decode(rest, 2, v % 16, 0))
            case 2 => Cons(left * 16 + v / 4, Decode(rest, 3, v % 4, 0))
            case _ => Cons(left * 64 + v, Decode(rest, 0, 0, 0))
  {
    assert ([Symbol(v)] + rest)[1..] == rest;
  }

  lemma DecodeQuad(v0: Sextet, v1: Sextet, v2: Sextet, v3: Sextet, rest: string)
    ensures Decode([Symbol(v0)] + ([Symbol(v1)] + ([Symbol(v2)] + ([Symbol(v3)] + rest))), 0, 0, 0)
            == Cons(v0 * 4 + v1 / 16, Cons(v1 % 16 * 16 + v2 / 4, Cons(v2 % 4 * 64 + v3, Decode(rest, 0, 0, 0))))
  {
    Take(v0, [Symbol(v1)] + ([Symbol(v2)] + ([Symbol(v3)] + rest)), 0, 0, 0);
    Take(v1, [Symbol(v2)] + ([Symbol(v3)] + rest), 1, v0, 0);
    Take(v2, [Symbol(v3)] + rest, 2, v1 % 16, 0);
    Take(v3, rest, 3, v2 % 4, 0);
  }

  lemma DecodeTriple(v0: Sextet, v1: Sextet, v2: Sextet)
    ensures Decode([Symbol(v0)] + ([Symbol(v1)] + ([Symbol(v2)] + "=")), 0, 0, 0)
            == Some([v0 * 4 + v1 / 16] + ([v1 % 16 * 16 + v2 / 4] + []))
  {
    Take(v0, [Symbol(v1)] + ([Symbol(v2)] + "="), 0, 0, 0);
    Take(v1, [Symbol(v2)] + "=", 1, v0, 0);
    Take(v2, "=", 2, v1 % 16, 0);
    assert Decode("=", 3, v2 % 4, 0) == Some([]);
  }

  lemma DecodePair(v0: Sextet, v1: Sextet)
    ensures Decode([Symbol(v0)] + ([Symbol(v1)] + "=="), 0, 0, 0) == Some([v0 * 4 + v1 / 16] + [])
  {
    Take(v0, [Symbol(v1)] + "==", 0, 0, 0);
    Take(v1, "==", 1, v0, 0);
    assert "=="[1..] == "=";
    assert Decode("=", 2, v1 % 16, 1) == Some([]);
  }

  /** The sextets hold the bytes' bits. */
  lemma Bits(a: Byte, b: Byte, c: Byte)
    ensures S0(a) * 4 + S1(a, b) / 16 == a
    ensures S1(a, b) % 16 * 16 + S2(b, c) / 4 == b
    ensures S2(b, c) % 4 * 64 + S3(c) == c
  {
    assert S1(a, b) / 16 == a % 4 && S1(a, b) % 16 == b / 16;
    assert S2(b, c) / 4 == b % 16 && S2(b, c) % 4 == c / 64;
  }

  lemma {:induction false} DecodeEncode(p: seq<Byte>)
    ensures Decode(Encode(p), 0, 0, 0) == Some(p)
  {
    if |p| == 1 {
      Singleton(p);
      DecodeLastOne(p[0]);
    } else if |p| == 2 {
      Pair(p);
      DecodeLastTwo(p[0], p[1]);
    } else if |p| > 2 {
      DecodeEncode(p[3..]);
      EncodeGroup(p);
      DecodeOntoGroup(p[0], p[1], p[2], Encode(p[3..]), p[3..]);
      assert p == [p[0], p[1], p[2]] + p[3..];
    }
  }

  lemma EncodeGroup(p: seq<Byte>)
    requires |p| > 2
    ensures Encode(p) == Group(p[0], p[1], p[2]) + Encode(p[3..])
    ensures Data(p) == Group(p[0], p[1], p[2]) + Data(p[3..])
  {
  }

  lemma DecodeOntoGroup(a: Byte, b: Byte, c: Byte, rest: string, tail: seq<Byte>)
    requires Decode(rest, 0, 0, 0) == Some(tail)
    ensures Decode(Group(a, b, c) + rest, 0, 0, 0) == Some([a, b, c] + tail)
  {
    DecodeGroup(a, b, c, rest);
    assert [a] + ([b] + ([c] + tail)) == [a, b, c] + tail;
  }

  lemma Singleton(p: seq<Byte>)
    requires |p| == 1
    ensures p == [p[0]]
  {
  }

  lemma Pair(p: seq<Byte>)
    requires |p| == 2
    ensures p == [p[0], p[1]]
  {
  }

  lemma DecodeLastOne(a: Byte)
    ensures Decode(Encode([a]), 0, 0, 0) == Some([a])
  {
    DecodePair(S0(a), S1(a, 0));
    Bits(a, 0, 0);
    assert [a] + [] == [a];
    assert Encode([a]) == [Symbol(S0(a))] + ([Symbol(S1(a, 0))] + "==");
  }

  lemma DecodeLastTwo(a: Byte, b: Byte)
    ensures Decode(Encode([a, b]), 0, 0, 0) == Some([a, b])
  {
    DecodeTriple(S0(a), S1(a, b), S2(b, 0));
    Bits(a, b, 0);
    assert [a] + ([b] + []) == [a, b];
    assert Encode([a, b]) == [Symbol(S0(a))] + ([Symbol(S1(a, b))] + ([Symbol(S2(b, 0))] + "="));
  }

  lemma DecodeGroup(a: Byte, b: Byte, c: Byte, rest: string)
    ensures Decode(Group(a, b, c) + rest, 0, 0, 0) == Cons(a, Cons(b, Cons(c, Decode(rest, 0, 0, 0))))
  {
    DecodeQuad(S0(a), S1(a, b), S2(b, c), S3(c), rest);
    Bits(a, b, c);
    assert Group(a, b, c) + rest
        == [Symbol(S0(a))] + ([Symbol(S1(a, b))] + ([Symbol(S2(b, c))] + ([Symbol(S3(c))] + rest)));
  }

  // ---- padding ----

  function Data(p: seq<Byte>): string {
    if |p| == 0 then ""
    else if |p| == 1 then [Symbol(S0(p[0])), Symbol(S1(p[0], 0))]
    else if |p| == 2 then [Symbol(S0(p[0])), Symbol(S1(p[0], p[1])), Symbol(S2(p[1], 0))]
    else Group(p[0], p[1], p[2]) + Data(p[3..])
  }

  lemma {:induction false} DataIsPlain(p: seq<Byte>)
    ensures '=' !in Data(p) && Ascii(Data(p)) && |Data(p)| % 4 != 1
  {
    if |p| > 2 { DataIsPlain(p[3..]); }
  }

  /** The encoding is its data characters, then the padding that their number calls for. */
  lemma {:induction false} EncodeIsDataAndPadding(p: seq<Byte>)
    ensures Encode(p) == Data(p) + Pads(PadCount(|Data(p)|))
  {
    if |p| > 2 {
      EncodeIsDataAndPadding(p[3..]);
      EncodeGroup(p);
      PaddingAfterGroup(Group(p[0], p[1], p[2]), Data(p[3..]));
    } else {
      ShortPadding(p);
    }
  }

  lemma PaddingAfterGroup(group: string, data: string)
    requires |group| == 4
    ensures group + (data + Pads(PadCount(|data|))) == (group + data) + Pads(PadCount(|group + data|))
  {
    FourMore(|data|);
    Regroup(group, data, Pads(PadCount(|data|)));
  }

  lemma FourMore(n: nat)
    ensures PadCount(4 + n) == PadCount(n)
  {
  }

  lemma Regroup(a: string, b: string, c: string)
    ensures a + (b + c) == (a + b) + c
  {
  }

  lemma ShortPadding(p: seq<Byte>)
    requires |p| < 3
    ensures Encode(p) == Data(p) + Pads(PadCount(|Data(p)|))
  {
    assert Pads(2) == "==" && Pads(1) == "=" && Pads(0) == "";
  }

  lemma {:induction false} StripPads(data: string, n: nat)
    requires '=' !in data
    ensures StripPadding(data + Pads(n)) == data
  {
    var s := data + Pads(n);
    if n == 0 {
      assert s == data;
    } else {
      assert s[..|s| - 1] == data + Pads(n - 1);
      StripPads(data, n - 1);
    }
  }

  lemma PaddingIsAscii(data: string, n: nat)
    requires Ascii(data)
    ensures Ascii(data + Pads(n))
  {
    PadsAreAscii(n);
  }

  lemma {:induction false} PadsAreAscii(n: nat)
    ensures Ascii(Pads(n))
  {
    if n > 0 { PadsAreAscii(n - 1); }
  }

  /** Padding stripped from any encoding is restored exactly by -len % 4. */
  lemma PaddingIsRestored(p: seq<Byte>)
    ensures RestorePadding(StripPadding(Encode(p))) == Encode(p)
    ensures '=' !in StripPadding(Encode(p)) && Ascii(StripPadding(Encode(p)))
  {
    var data := Data(p);
    EncodeIsDataAndPadding(p);
    DataIsPlain(p);
    StripPads(data, PadCount(|data|));
  }

  /** Every payload, of any length and any bytes, comes back from its stripped encoding. */
  lemma StrippedRoundTrip(p: seq<Byte>)
    ensures UrlsafeDecode(RestorePadding(StripPadding(Encode(p)))) == Some(p)
  {
    PaddingIsRestored(p);
    EncodeIsDataAndPadding(p);
    DataIsPlain(p);
    PaddingIsAscii(Data(p), PadCount(|Data(p)|));
    DecodeEncode(p);
  }

  /** Characters outside both alphabets, and not padding. */
  predicate Foreign(s: string) { forall i | 0 <= i < |s| :: Value(s[i]).None? && s[i] != '=' }

  /** The reader also takes texts no writer makes: it skips characters outside both alphabets. */
  lemma {:induction false} ForeignCharactersAreSkipped(s: string, i: nat, c: char, quad: int, left: int, pads: nat)
    requires i <= |s| && Value(c).None? && c != '='
    requires quad == 0 || (quad == 1 && 0 <= left < 64) || (quad == 2 && 0 <= left < 16) || (quad == 3 && 0 <= left < 4)
    ensures Decode(s[..i] + [c] + s[i..], quad, left, pads) == Decode(s, quad, left, pads)
    decreases |s|
  {
    var t := s[..i] + [c] + s[i..];
    if i == 0 {
      assert t[0] == c && t[1..] == s;
    } else {
      assert t[0] == s[0] && t[1..] == s[1..][..i - 1] + [c] + s[1..][i - 1..];
      if s[0] == '=' {
        if !(quad >= 2 && quad + pads + 1 >= 4) {
          ForeignCharactersAreSkipped(s[1..], i - 1, c, quad, left, if quad >= 2 then pads + 1 else pads);
        }
      } else if Value(s[0]).None? {
        ForeignCharactersAreSkipped(s[1..], i - 1, c, quad, left, pads);
      } else {
        var v := Value(s[0]).value;
        match quad
        case 0 => ForeignCharactersAreSkipped(s[1..], i - 1, c, 1, v, 0);
        case 1 => ForeignCharactersAreSkipped(s[1..], i - 1, c, 2, v % 16, 0);
        case 2 => ForeignCharactersAreSkipped(s[1..], i - 1, c, 3, v % 4, 0);
        case _ => ForeignCharactersAreSkipped(s[1..], i - 1, c, 0, 0, 0);
      }
    }
  }
}
