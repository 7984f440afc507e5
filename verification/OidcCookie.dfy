/** oidc_state.py: the signed, time-limited cookie carried between the identity provider and the callback. */
module OidcCookie {
  import opened Basics
  import opened SignedCookies
  import opened Base64Url

  /** The cookie's JSON object; `iat` is absent when the object has no number under that key. */
  datatype Flow = Flow(state: string, nonce: string, verifier: string, next: string, iat: Option<real>)

  const MAX_AGE: real := 600.0

  function MakeCookieValue(sign: seq<Byte> -> string, payload: seq<Byte>): string {
    StripPadding(Encode(payload)) + "." + sign(payload)
  }

  function ReadCookieValue(sign: seq<Byte> -> string, loads: seq<Byte> -> Option<Flow>, raw: string,
                           now: real): Outcome<Flow>
    requires HexDigests(sign)
  {
    var parts := SplitAtLastDot(raw);
    if parts.None? then Rejects
    else
      var (body, sig) := parts.value;
      var payload := UrlsafeDecode(RestorePadding(body));
      if payload.None? then Rejects
      else
        match CompareDigest(sign(payload.value), sig)
        case Raises => Raises
        case Rejects => Rejects
        case Accepts(same) => if !same then Rejects else Fresh(loads(payload.value), now)
  }

  function Fresh(flow: Option<Flow>, now: real): Outcome<Flow> {
    if flow.None? || flow.value.iat.None? || now - flow.value.iat.value > MAX_AGE then Rejects else Accepts(flow.value)
  }

  /** A cookie made at login reads back whole, with every field, exactly until its lifetime ends. */
  lemma ReadsWithinLifetime(sign: seq<Byte> -> string, dumps: Flow -> seq<Byte>, loads: seq<Byte> -> Option<Flow>,
                            flow: Flow, iat: real, now: real)
    requires HexDigests(sign) && flow.iat == Some(iat)
    requires loads(dumps(flow)) == Some(flow)   // what json.dumps writes for this flow, json.loads reads back
    ensures ReadCookieValue(sign, loads, MakeCookieValue(sign, dumps(flow)), now) ==
            if now - iat <= MAX_AGE then Accepts(flow) else Rejects
  {
    var payload := dumps(flow);
    SplitIsUnique(StripPadding(Encode(payload)), sign(payload));
    StrippedRoundTrip(payload);
  }

  /** Whatever is accepted carries this server's signature of the very bytes the flow was read from,
      and is still fresh. */
  lemma AcceptedWasSigned(sign: seq<Byte> -> string, loads: seq<Byte> -> Option<Flow>, raw: string, now: real)
    requires HexDigests(sign) && ReadCookieValue(sign, loads, raw, now).Accepts?
    ensures exists body, payload: seq<Byte> ::
              && raw == body + "." + sign(payload)
              && loads(payload) == Some(ReadCookieValue(sign, loads, raw, now).value)
    ensures var flow := ReadCookieValue(sign, loads, raw, now).value; flow.iat.Some? && now <= flow.iat.value + MAX_AGE
  {
    var (body, sig) := SplitAtLastDot(raw).value;
    var payload := UrlsafeDecode(RestorePadding(body)).value;
    assert raw == body + "." + sign(payload);
  }

  /** Reading fails, rather than answers, exactly when the body decodes and the signature is not ASCII. */
  lemma FailsExactlyOnForeignSignatures(sign: seq<Byte> -> string, loads: seq<Byte> -> Option<Flow>,
                                        body: string, sig: string, now: real)
    requires HexDigests(sign) && '.' !in sig
    ensures ReadCookieValue(sign, loads, body + "." + sig, now).Raises? <==>
            UrlsafeDecode(RestorePadding(body)).Some? && !Ascii(sig)
  {
    SplitIsUnique(body, sig);
  }

  /** It does: an empty body decodes to no bytes, and a signature of one accented letter makes the reader fail. */
  lemma ForeignSignatureFails(sign: seq<Byte> -> string, loads: seq<Byte> -> Option<Flow>, now: real)
    requires HexDigests(sign)
    ensures ReadCookieValue(sign, loads, ".\U{E9}", now).Raises?
  {
    assert "" + "." + "\U{E9}" == ".\U{E9}";
    assert "\U{E9}"[0] as int == 0xE9;
    assert UrlsafeDecode(RestorePadding("")) == Some([]);
    FailsExactlyOnForeignSignatures(sign, loads, "", "\U{E9}", now);
  }

  /** Only the bytes a body decodes to matter. */
  lemma SameBytesReadAlike(sign: seq<Byte> -> string, loads: seq<Byte> -> Option<Flow>,
                           a: string, b: string, sig: string, now: real)
    requires HexDigests(sign) && '.' !in sig
    requires UrlsafeDecode(RestorePadding(a)) == UrlsafeDecode(RestorePadding(b))
    ensures ReadCookieValue(sign, loads, a + "." + sig, now) == ReadCookieValue(sign, loads, b + "." + sig, now)
  {
    SplitIsUnique(a, sig);
    SplitIsUnique(b, sig);
  }

  /** Unlike the consent cookie, this one is not the only text that reads as its flow: foreign
      characters in front of it change nothing, as long as the padding still comes out the same. */
  lemma OtherTextsRead(sign: seq<Byte> -> string, loads: seq<Byte> -> Option<Flow>,
                       payload: seq<Byte>, junk: string, now: real)
    requires HexDigests(sign) && Foreign(junk) && Ascii(junk) && |junk| % 4 == 0
    ensures ReadCookieValue(sign, loads, junk + MakeCookieValue(sign, payload), now)
         == ReadCookieValue(sign, loads, MakeCookieValue(sign, payload), now)
  {
    var body, sig := StripPadding(Encode(payload)), sign(payload);
    assert junk + MakeCookieValue(sign, payload) == (junk + body) + "." + sig;
    JunkBeforeBody(junk, body);
    SameBytesReadAlike(sign, loads, junk + body, body, sig, now);
  }

  lemma JunkBeforeBody(junk: string, body: string)
    requires Foreign(junk) && Ascii(junk) && |junk| % 4 == 0
    ensures UrlsafeDecode(RestorePadding(junk + body)) == UrlsafeDecode(RestorePadding(body))
  {
    var pads := Pads(PadCount(|body|));
    Regroup(junk, body, pads);
    JunkSkipped(junk, body + pads);
    AsciiAfter(junk, body + pads);
  }

  lemma AsciiAfter(junk: string, s: string)
    requires Ascii(junk)
    ensures Ascii(junk + s) <==> Ascii(s)
  {
    if Ascii(junk + s) {
      forall i | 0 <= i < |s| ensures s[i] < 128 as char { assert s[i] == (junk + s)[|junk| + i]; }
    }
  }

  lemma {:induction false} JunkSkipped(junk: string, s: string)
    requires Foreign(junk)
    ensures Decode(junk + s, 0, 0, 0) == Decode(s, 0, 0, 0)
  {
    if junk == [] {
      assert junk + s == s;
    } else {
      assert (junk + s)[1..] == junk[1..] + s;
      JunkSkipped(junk[1..], s);
    }
  }
}
