/** oauth_consent_state.py: the signed cookie that binds a consent page to one browser. */
module ConsentCookie {
  import opened Basics
  import opened SignedCookies

  function MakeCookieValue(sign: string -> string, id: string): string {
    id + "." + sign(id)
  }

  function ReadCookieValue(sign: string -> string, raw: string): Outcome<string>
    requires HexDigests(sign)
  {
    var parts := SplitAtLastDot(raw);
    if parts.None? then Rejects
    else
      var (id, sig) := parts.value;
      match CompareDigest(sign(id), sig)
      case Raises => Raises
      case Accepts(same) => if same then Accepts(id) else Rejects
      case Rejects => Rejects
  }

  /** The reader returns an id exactly for the one cookie made for it, dots in the id or not. */
  lemma ReadsExactlyTheMadeCookie(sign: string -> string, raw: string, id: string)
    requires HexDigests(sign)
    ensures ReadCookieValue(sign, raw) == Accepts(id) <==> raw == MakeCookieValue(sign, id)
  {
    SplitIsUnique(id, sign(id));
  }

  /** Two ids never share a cookie, so a browser bound to one request is bound to no other. */
  lemma CookiesAreDistinct(sign: string -> string, a: string, b: string)
    requires HexDigests(sign)
    ensures MakeCookieValue(sign, a) == MakeCookieValue(sign, b) ==> a == b
  {
    SplitIsUnique(a, sign(a));
    SplitIsUnique(b, sign(b));
  }

  /** The reader answers, rather than fails, exactly when what follows the last dot is ASCII. */
  lemma FailsExactlyOnForeignSignatures(sign: string -> string, left: string, right: string)
    requires HexDigests(sign) && '.' !in right
    ensures ReadCookieValue(sign, left + "." + right).Raises? <==> !Ascii(right)
  {
    SplitIsUnique(left, right);
  }

  /** It does fail: a signature of one accented letter, on any id at all. */
  lemma ForeignSignatureFails(sign: string -> string, id: string)
    requires HexDigests(sign)
    ensures ReadCookieValue(sign, id + "." + "\U{E9}").Raises?
  {
    assert "\U{E9}"[0] as int == 0xE9;
    FailsExactlyOnForeignSignatures(sign, id, "\U{E9}");
  }
}
