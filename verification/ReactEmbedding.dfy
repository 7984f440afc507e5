/** Embedding a React artifact's source in its page: json.dumps(source).replace("</", "<\\/"), read
    back with the string grammar of RFC 8259, section 7. */
module ReactEmbedding {
  import opened Basics

  /** A Python string element: any code point, lone surrogates included. */
  type CodePoint = c: int | 0 <= c <= 0x10FFFF

  /** A UTF-16 code unit, what a JavaScript string is made of. */
  type Unit = u: int | 0 <= u <= 0xFFFF

  predicate IsHigh(c: int) { 0xD800 <= c < 0xDC00 }

  predicate IsLow(c: int) { 0xDC00 <= c < 0xE000 }

  function High(c: CodePoint): (u: Unit)
    requires c >= 0x10000
    ensures IsHigh(u)
  {
    0xD800 + (c - 0x10000) / 0x400
  }

  function Low(c: CodePoint): (u: Unit)
    requires c >= 0x10000
    ensures IsLow(u)
  {
    0xDC00 + (c - 0x10000) % 0x400
  }

  function Combine(high: Unit, low: Unit): (c: CodePoint)
    requires IsHigh(high) && IsLow(low)
    ensures c >= 0x10000 && High(c) == high && Low(c) == low
  {
    0x10000 + (high - 0xD800) * 0x400 + (low - 0xDC00)
  }

  function Units(c: CodePoint): seq<Unit> {
    if c < 0x10000 then [c] else [High(c), Low(c)]
  }

  function Utf16(s: seq<CodePoint>): seq<Unit> {
    if s == [] then [] else Units(s[0]) + Utf16(s[1..])
  }

  // ---- the encoder ----

  function Digit(d: int): (c: char)
    requires 0 <= d < 16
    ensures HexValue(c) == Some(d)
  {
    if d < 10 then '0' + d as char else 'a' + (d - 10) as char
  }

  function HexValue(c: char): (d: Option<int>)
    ensures d.Some? ==> 0 <= d.value < 16 && c != '<'
  {
    if '0' <= c <= '9' then Some(c as int - '0' as int)
    else if 'a' <= c <= 'f' then Some(c as int - 'a' as int + 10)
    else if 'A' <= c <= 'F' then Some(c as int - 'A' as int + 10)
    else None
  }

  function UnicodeEscape(u: Unit): string {
    ['\\', 'u', Digit(u / 0x1000), Digit(u / 0x100 % 16), Digit(u / 16 % 16), Digit(u % 16)]
  }

  function Short(c: CodePoint): Option<char> {
    if c == '\"' as int then Some('\"')
    else if c == '\\' as int then Some('\\')
    else if c == 8 then Some('b')
    else if c == 12 then Some('f')
    else if c == 10 then Some('n')
    else if c == 13 then Some('r')
    else if c == 9 then Some('t')
    else None
  }

  /** One character as json.dumps writes it with ensure_ascii. */
  function Escape(c: CodePoint): string {
    if Short(c).Some? then ['\\', Short(c).value]
    else if ' ' as int <= c <= '~' as int then [c as char]
    else if c < 0x10000 then UnicodeEscape(c)
    else UnicodeEscape(High(c)) + UnicodeEscape(Low(c))
  }

  function Escaped(s: seq<CodePoint>): string {
    if s == [] then "\"" else Escape(s[0]) + Escaped(s[1..])
  }

  function Dumps(s: seq<CodePoint>): string { "\"" + Escaped(s) }

  /** `.replace("</", "<\\/")` */
  function SplitClosers(t: string): string {
    if |t| < 2 then t
    else if t[0] == '<' && t[1] == '/' then "<\\/" + SplitClosers(t[2..])
    else [t[0]] + SplitClosers(t[1..])
  }

  function Embed(s: seq<CodePoint>): string { SplitClosers(Dumps(s)) }

  // ---- the reader ----

  function FromShort(c: char): Option<Unit> {
    match c
    case '\"' => Some(0x22)
    case '\\' => Some(0x5C)
    case '/' => Some(0x2F)
    case 'b' => Some(8)
    case 'f' => Some(12)
    case 'n' => Some(10)
    case 'r' => Some(13)
    case 't' => Some(9)
    case _ => None
  }

  /** The value of `n` hexadecimal digits at the head of `t`, appended to those already read. */
  function ReadHex(t: string, n: nat, read: nat): Option<nat> {
    if n == 0 then Some(read)
    else if t == [] || HexValue(t[0]).None? then None
    else ReadHex(t[1..], n - 1, read * 16 + HexValue(t[0]).value)
  }

  function Prepend(units: seq<Unit>, rest: Option<seq<Unit>>): Option<seq<Unit>> {
    if rest.Some? then Some(units + rest.value) else None
  }

  /** The characters of a JSON string up to and including its closing quote, which must end the text. */
  function ParseChars(t: string): Option<seq<Unit>> {
    if t == [] then None
    else if t[0] == '\"' then if |t| == 1 then Some([]) else None
    else if t[0] < ' ' then None
    else if t[0] != '\\' then Prepend(Units(t[0] as int), ParseChars(t[1..]))
    else if |t| < 2 then None
    else if t[1] != 'u' then
      if FromShort(t[1]).None? then None else Prepend([FromShort(t[1]).value], ParseChars(t[2..]))
    else
      var unit := ReadHex(t[2..], 4, 0);
      if unit.None? || unit.value > 0xFFFF || |t| < 6 then None else Prepend([unit.value], ParseChars(t[6..]))
  }

  function Parse(t: string): Option<seq<Unit>> {
    if t == [] || t[0] != '\"' then None else ParseChars(t[1..])
  }

  // ---- what the page carries ----

  /** No "</" is left, so nothing in the page's script block can be read as its end tag. */
  lemma {:induction false} NoCloserLeft(t: string, i: nat)
    requires i + 1 < |SplitClosers(t)|
    ensures !(SplitClosers(t)[i] == '<' && SplitClosers(t)[i + 1] == '/')
  {
    if |t| >= 2 && t[0] == '<' && t[1] == '/' {
      if i >= 3 { NoCloserLeft(t[2..], i - 3); }
    } else if |t| >= 2 {
      if i > 0 { NoCloserLeft(t[1..], i - 1); } else { HeadKept(t[1..]); }
    }
  }

  lemma HeadKept(t: string)
    ensures (t == []) == (SplitClosers(t) == [])
    ensures t != [] ==> SplitClosers(t)[0] == t[0]
  {
  }

  lemma SplitStep(t: string)
    requires t != [] && t[0] != '<'
    ensures SplitClosers(t) == [t[0]] + SplitClosers(t[1..])
  {
    if |t| == 1 { assert t == [t[0]] + SplitClosers(t[1..]); }
  }

  lemma {:induction false} HexKept(t: string, n: nat, read: nat)
    ensures ReadHex(SplitClosers(t), n, read) == ReadHex(t, n, read)
    ensures ReadHex(t, n, read).Some? ==>
              |t| >= n && |SplitClosers(t)| >= n && SplitClosers(t)[n..] == SplitClosers(t[n..])
    decreases n
  {
    HeadKept(t);
    if n > 0 && t != [] && HexValue(t[0]).Some? {
      SplitStep(t);
      var next := read * 16 + HexValue(t[0]).value;
      HexKept(t[1..], n - 1, next);
      assert SplitClosers(t)[1..] == SplitClosers(t[1..]);
      if ReadHex(t, n, read).Some? {
        assert t[1..][n - 1..] == t[n..];
        assert SplitClosers(t)[n..] == SplitClosers(t[1..])[n - 1..];
      }
    }
  }

  /** Splitting the closers changes no JSON string's meaning, and makes no invalid one valid. */
  lemma {:induction false} SplitKeepsMeaning(t: string)
    ensures ParseChars(SplitClosers(t)) == ParseChars(t)
    decreases |t|
  {
    HeadKept(t);
    if t != [] && t[0] == '<' {
      SplitKeepsMeaningLess(t);
    } else if t != [] {
      SplitStep(t);
      assert SplitClosers(t)[1..] == SplitClosers(t[1..]);
      HeadKept(t[1..]);
      if t[0] == '\\' && |t| > 1 { SplitKeepsEscape(t); } else { SplitKeepsMeaning(t[1..]); }
    }
  }

  lemma {:induction false} SplitKeepsMeaningLess(t: string)
    requires t != [] && t[0] == '<'
    ensures ParseChars(SplitClosers(t)) == ParseChars(t)
    decreases |t|, 0
  {
    if |t| > 1 && t[1] == '/' {
      SplitKeepsMeaning(t[2..]);
      var rest := SplitClosers(t[2..]);
      assert SplitClosers(t) == ['<', '\\', '/'] + rest;
      assert SplitClosers(t)[1..] == ['\\', '/'] + rest && (['\\', '/'] + rest)[2..] == rest;
      assert t[1..][1..] == t[2..];
    } else if |t| > 1 {
      SplitKeepsMeaning(t[1..]);
      assert SplitClosers(t)[1..] == SplitClosers(t[1..]);
    }
  }

  lemma {:induction false} SplitKeepsEscape(t: string)
    requires |t| > 1 && t[0] == '\\'
    ensures ParseChars(SplitClosers(t)) == ParseChars(t)
    decreases |t|, 0
  {
    var split := SplitClosers(t);
    SplitStep(t);
    HeadKept(t[1..]);
    assert split[1] == t[1];
    if t[1] != '<' {
      SplitStep(t[1..]);
      assert t[1..][1..] == t[2..];
      assert split[2..] == SplitClosers(t[2..]);
      if t[1] != 'u' {
        SplitKeepsMeaning(t[2..]);
      } else {
        HexKept(t[2..], 4, 0);
        if ReadHex(t[2..], 4, 0).Some? {
          assert t[2..][4..] == t[6..] && split[2..][4..] == split[6..];
          SplitKeepsMeaning(t[6..]);
        }
      }
    }
  }

  lemma ReadDigit(d: int, rest: string, n: nat, read: nat)
    requires 0 <= d < 16 && n > 0
    ensures ReadHex([Digit(d)] + rest, n, read) == ReadHex(rest, n - 1, read * 16 + d)
  {
    assert ([Digit(d)] + rest)[1..] == rest;
  }

  lemma ReadFourDigits(a: int, b: int, c: int, d: int, rest: string)
    requires 0 <= a < 16 && 0 <= b < 16 && 0 <= c < 16 && 0 <= d < 16
    ensures ReadHex([Digit(a)] + ([Digit(b)] + ([Digit(c)] + ([Digit(d)] + rest))), 4, 0)
            == Some(((a * 16 + b) * 16 + c) * 16 + d)
  {
    ReadDigit(a, [Digit(b)] + ([Digit(c)] + ([Digit(d)] + rest)), 4, 0);
    ReadDigit(b, [Digit(c)] + ([Digit(d)] + rest), 3, a);
    ReadDigit(c, [Digit(d)] + rest, 2, a * 16 + b);
    ReadDigit(d, rest, 1, (a * 16 + b) * 16 + c);
  }

  lemma UnitDigits(u: Unit)
    ensures ((u / 0x1000 * 16 + u / 0x100 % 16) * 16 + u / 16 % 16) * 16 + u % 16 == u
  {
  }

  lemma ReadUnit(u: Unit, rest: string)
    ensures ParseChars(UnicodeEscape(u) + rest) == Prepend([u], ParseChars(rest))
  {
    var t := UnicodeEscape(u) + rest;
    var a, b, c, d := u / 0x1000, u / 0x100 % 16, u / 16 % 16, u % 16;
    UnitDigits(u);
    ReadFourDigits(a, b, c, d, rest);
    assert t[2..] == [Digit(a)] + ([Digit(b)] + ([Digit(c)] + ([Digit(d)] + rest)));
    ReadUnicodeEscape(t, u);
    assert t[6..] == rest;
  }

  lemma ReadUnicodeEscape(t: string, u: Unit)
    requires |t| >= 6 && t[0] == '\\' && t[1] == 'u' && ReadHex(t[2..], 4, 0) == Some(u)
    ensures ParseChars(t) == Prepend([u], ParseChars(t[6..]))
  {
  }

  lemma ReadShort(c: CodePoint, rest: string)
    requires Short(c).Some?
    ensures ParseChars(['\\', Short(c).value] + rest) == Prepend([c], ParseChars(rest))
  {
    assert (['\\', Short(c).value] + rest)[2..] == rest;
  }

  lemma ReadPlain(c: CodePoint, rest: string)
    requires ' ' as int <= c <= '~' as int && Short(c).None?
    ensures ParseChars([c as char] + rest) == Prepend([c], ParseChars(rest))
  {
    assert ([c as char] + rest)[1..] == rest;
  }

  lemma ReadEscape(c: CodePoint, rest: string)
    ensures ParseChars(Escape(c) + rest) == Prepend(Units(c), ParseChars(rest))
  {
    if Short(c).Some? {
      ReadShort(c, rest);
    } else if ' ' as int <= c <= '~' as int {
      ReadPlain(c, rest);
    } else if c < 0x10000 {
      ReadUnit(c, rest);
    } else {
      ReadPair(c, rest);
    }
  }

  lemma ReadPair(c: CodePoint, rest: string)
    requires c >= 0x10000
    ensures ParseChars(UnicodeEscape(High(c)) + UnicodeEscape(Low(c)) + rest) == Prepend(Units(c), ParseChars(rest))
  {
    var high, low := UnicodeEscape(High(c)), UnicodeEscape(Low(c));
    assert high + low + rest == high + (low + rest);
    ReadUnit(High(c), low + rest);
    ReadUnit(Low(c), rest);
    PrependTwice(High(c), Low(c), ParseChars(rest));
  }

  lemma PrependTwice(a: Unit, b: Unit, rest: Option<seq<Unit>>)
    ensures Prepend([a], Prepend([b], rest)) == Prepend([a, b], rest)
  {
    if rest.Some? { assert [a] + ([b] + rest.value) == [a, b] + rest.value; }
  }

  lemma {:induction false} DumpsRoundTrip(s: seq<CodePoint>)
    ensures ParseChars(Escaped(s)) == Some(Utf16(s))
  {
    if s != [] {
      DumpsRoundTrip(s[1..]);
      ReadEscape(s[0], Escaped(s[1..]));
    }
  }

  /** The script block's text reads back as the source, as JavaScript holds it, for every source. */
  lemma EmbeddingRoundTrip(s: seq<CodePoint>)
    ensures Parse(Embed(s)) == Some(Utf16(s))
  {
    var chars := Escaped(s);
    assert Dumps(s)[1..] == chars;
    SplitStep(Dumps(s));
    assert Embed(s)[1..] == SplitClosers(chars);
    SplitKeepsMeaning(chars);
    DumpsRoundTrip(s);
  }

  // ---- from UTF-16 back to code points ----

  function Decoded(units: seq<Unit>): seq<CodePoint> {
    if units == [] then []
    else if |units| > 1 && IsHigh(units[0]) && IsLow(units[1]) then [Combine(units[0], units[1])] + Decoded(units[2..])
    else [units[0]] + Decoded(units[1..])
  }

  /** A lone high surrogate directly followed by a lone low one, which UTF-16 cannot tell from a pair. */
  predicate LonePair(s: seq<CodePoint>) {
    exists i | 0 <= i < |s| - 1 :: IsHigh(s[i]) && IsLow(s[i + 1])
  }

  lemma LonePairCons(s: seq<CodePoint>)
    requires s != []
    ensures LonePair(s) <==> (|s| > 1 && IsHigh(s[0]) && IsLow(s[1])) || LonePair(s[1..])
  {
    var rest := s[1..];
    if LonePair(rest) {
      var i :| 0 <= i < |rest| - 1 && IsHigh(rest[i]) && IsLow(rest[i + 1]);
      assert IsHigh(s[i + 1]) && IsLow(s[i + 2]);
    }
    if LonePair(s) {
      var i :| 0 <= i < |s| - 1 && IsHigh(s[i]) && IsLow(s[i + 1]);
      if i > 0 { assert IsHigh(rest[i - 1]) && IsLow(rest[i]); }
    }
  }

  lemma CombineSplits(c: CodePoint)
    requires c >= 0x10000
    ensures Combine(High(c), Low(c)) == c
  {
  }

  lemma FirstUnit(s: seq<CodePoint>)
    requires s != []
    ensures Utf16(s) != [] && Utf16(s)[0] == Units(s[0])[0]
  {
  }

  lemma {:induction false} DecodedUtf16(s: seq<CodePoint>)
    ensures |Decoded(Utf16(s))| <= |s|
    ensures Decoded(Utf16(s)) == s <==> !LonePair(s)
    decreases |s|
  {
    if s != [] {
      LonePairCons(s);
      DecodedUtf16(s[1..]);
      if s[0] >= 0x10000 { AstralHead(s); }
      else if |s| > 1 && IsHigh(s[0]) && IsLow(s[1]) {
        DecodedUtf16(s[2..]);
        MergedHead(s);
      } else { PlainHead(s); }
    }
  }

  lemma AstralHead(s: seq<CodePoint>)
    requires s != [] && s[0] >= 0x10000
    ensures Decoded(Utf16(s)) == [s[0]] + Decoded(Utf16(s[1..]))
  {
    CombineSplits(s[0]);
    assert Utf16(s)[2..] == Utf16(s[1..]);
  }

  lemma MergedHead(s: seq<CodePoint>)
    requires |s| > 1 && IsHigh(s[0]) && IsLow(s[1])
    ensures Decoded(Utf16(s)) == [Combine(s[0], s[1])] + Decoded(Utf16(s[2..]))
  {
    assert s[1..][1..] == s[2..];
    assert Utf16(s[1..]) == [s[1]] + Utf16(s[2..]);
    assert Utf16(s) == [s[0]] + ([s[1]] + Utf16(s[2..]));
    assert Utf16(s)[2..] == Utf16(s[2..]);
  }

  lemma PlainHead(s: seq<CodePoint>)
    requires s != [] && s[0] < 0x10000 && !(|s| > 1 && IsHigh(s[0]) && IsLow(s[1]))
    ensures Decoded(Utf16(s)) == [s[0]] + Decoded(Utf16(s[1..]))
  {
    assert Utf16(s)[1..] == Utf16(s[1..]);
    if |s| > 1 { FirstUnit(s[1..]); }
  }

  /** Code point for code point, the source survives exactly when it holds no lone surrogates side
      by side; every text that UTF-8 can encode is such a source. */
  lemma SourceSurvivesExactly(s: seq<CodePoint>)
    ensures Parse(Embed(s)).Some?
    ensures Decoded(Parse(Embed(s)).value) == s <==> !LonePair(s)
  {
    EmbeddingRoundTrip(s);
    DecodedUtf16(s);
  }
}
