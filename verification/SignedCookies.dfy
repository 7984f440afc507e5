/** What both signed cookies share: "value.signature", split at the last dot and compared in constant time. */
module SignedCookies {
  import opened Basics

  /** What a cookie reader does: hand back what the cookie carries, turn it down, or fail. */
  datatype Outcome<T> = Accepts(value: T) | Rejects | Raises

  /** All that is assumed of a hex digest: no dot, only ASCII. */
  ghost predicate HexDigests<T(!new)>(sign: T -> string) {
    forall x :: Ascii(sign(x)) && '.' !in sign(x)
  }

  /** `secrets.compare_digest` on strings: it fails unless both are ASCII. */
  function CompareDigest(digest: string, sig: string): Outcome<bool>
    requires Ascii(digest)
  {
    if !Ascii(sig) then Raises else Accepts(digest == sig)
  }

  /** `raw.rsplit(".", 1)`, with nothing for a text that has no dot. */
  function SplitAtLastDot(raw: string): (parts: Option<(string, string)>)
    ensures parts.None? <==> '.' !in raw
    ensures parts.Some? ==> raw == parts.value.0 + "." + parts.value.1 && '.' !in parts.value.1
  {
    if raw == [] then None
    else
      var last, before := raw[|raw| - 1], raw[..|raw| - 1];
      assert raw == before + [last];
      if last == '.' then Some((before, ""))
      else
        var parts := SplitAtLastDot(before);
        if parts.None? then None else Some((parts.value.0, parts.value.1 + [last]))
  }

  /** Only one split has a dotless right part. */
  lemma {:induction false} SplitIsUnique(left: string, right: string)
    requires '.' !in right
    ensures SplitAtLastDot(left + "." + right) == Some((left, right))
  {
    var raw := left + "." + right;
    if right == [] {
      assert raw[..|raw| - 1] == left;
    } else {
      var n := |right| - 1;
      assert raw[..|raw| - 1] == left + "." + right[..n] && right[..n] + [right[n]] == right;
      SplitIsUnique(left, right[..n]);
    }
  }
}
