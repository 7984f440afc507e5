/** view.py's rewriting of CDN script tags, which must leave commented-out tags alone. The regular
    expression's matches are given: ordered, disjoint, each with the asset its slug stands for. */
module HtmlRewrite {
  import opened Basics
  import opened HtmlComments

  const CDN := "cdnjs.cloudflare.com/ajax/libs/"

  datatype Match = Match(start: nat, end: nat, asset: Option<string>)

  /** Matches as `re.sub` finds them: ordered, disjoint, inside the text from `lo` to `hi`. */
  ghost predicate Ordered(matches: seq<Match>, lo: nat, hi: nat) {
    && (forall k | 0 <= k < |matches| :: lo <= matches[k].start < matches[k].end <= hi)
    && (forall j, k | 0 <= j < k < |matches| :: matches[j].end <= matches[k].start)
  }

  /** A tag is replaced when it starts outside every comment and its slug is vendored. */
  predicate Replaced(m: Match, commented: int -> bool) {
    m.asset.Some? && !commented(m.start)
  }

  function Piece(s: string, m: Match, commented: int -> bool): string
    requires m.start <= m.end <= |s|
  {
    if Replaced(m, commented) then m.asset.value else s[m.start..m.end]
  }

  /** The text from `pos` on, with every match's piece in its place. */
  ghost function Rewritten(s: string, matches: seq<Match>, pos: nat, commented: int -> bool): string
    requires pos <= |s| && Ordered(matches, pos, |s|)
    decreases |matches|
  {
    if matches == [] then s[pos..]
    else
      var rest := Piece(s, matches[0], commented) + Rewritten(s, matches[1..], matches[0].end, commented);
      s[pos..matches[0].start] + rest
  }

  /** One turn of `re.sub`: the gap before a match, then `_replace`. */
  method ReplaceOne(s: string, pos: nat, m: Match, commentSpans: seq<Span>, ghost commented: int -> bool)
    returns (piece: string, replaced: bool)
    requires pos <= m.start <= m.end <= |s|
    requires forall j :: commented(j) <==> Covers(commentSpans, j)
    ensures piece == s[pos..m.start] + Piece(s, m, commented)
    ensures replaced <==> Replaced(m, commented)
  {
    if Covers(commentSpans, m.start) || m.asset.None? {
      return s[pos..m.start] + s[m.start..m.end], false;
    }
    return s[pos..m.start] + m.asset.value, true;
  }

  lemma RewrittenStep(s: string, matches: seq<Match>, k: nat, pos: nat, commented: int -> bool, page: string)
    requires k < |matches| && pos <= |s| && Ordered(matches[k..], pos, |s|)
    ensures pos <= matches[k].start <= matches[k].end <= |s| && Ordered(matches[k + 1..], matches[k].end, |s|)
    ensures page + Rewritten(s, matches[k..], pos, commented)
         == (page + (s[pos..matches[k].start] + Piece(s, matches[k], commented)))
            + Rewritten(s, matches[k + 1..], matches[k].end, commented)
  {
    assert matches[k..][0] == matches[k] && matches[k..][1..] == matches[k + 1..];
    var gap, piece := s[pos..matches[k].start], Piece(s, matches[k], commented);
    Associate(page, gap, piece, Rewritten(s, matches[k + 1..], matches[k].end, commented));
  }

  lemma Associate(a: string, b: string, c: string, d: string)
    ensures a + (b + (c + d)) == (a + (b + c)) + d
  {
  }

  /** The substitution loop, given what is commented out. */
  method Substitute(s: string, matches: seq<Match>, commentSpans: seq<Span>, ghost commented: int -> bool)
    returns (page: string, rewritten: bool)
    requires Ordered(matches, 0, |s|)
    requires forall j :: commented(j) <==> Covers(commentSpans, j)
    ensures page == Rewritten(s, matches, 0, commented)
    ensures rewritten <==> exists j | 0 <= j < |matches| :: Replaced(matches[j], commented)
  {
    page, rewritten := "", false;
    var pos: nat := 0;
    ghost var all, rest := Rewritten(s, matches, 0, commented), Rewritten(s, matches, 0, commented);
    assert matches[0..] == matches;
    for k := 0 to |matches|
      invariant pos <= |s| && Ordered(matches[k..], pos, |s|)
      invariant rest == Rewritten(s, matches[k..], pos, commented) && page + rest == all
      invariant rewritten <==> exists j | 0 <= j < k :: Replaced(matches[j], commented)
    {
      RewrittenStep(s, matches, k, pos, commented, page);
      var piece, replaced := ReplaceOne(s, pos, matches[k], commentSpans, commented);
      page := page + piece;
      rewritten := rewritten || replaced;
      pos := matches[k].end;
      rest := Rewritten(s, matches[k + 1..], pos, commented);
    }
    page := page + s[pos..];
  }

  /** _rewrite_cdn_library_urls; a match needs the literal host and path to be in the text. */
  method RewriteCdnLibraryUrls(content: string, matches: seq<Match>) returns (page: string, rewritten: bool)
    requires Ordered(matches, 0, |content|) && (Find(content, CDN, 0).None? ==> matches == [])
    ensures page == Rewritten(content, matches, 0, CommentedOut(content))
    ensures rewritten <==> exists j | 0 <= j < |matches| :: Replaced(matches[j], CommentedOut(content))
  {
    if Find(content, CDN, 0).None? { return content, false; }
    var commentSpans := FindHtmlCommentSpans(content);
    ghost var commented := CommentedOut(content);
    forall j ensures commented(j) <==> Covers(commentSpans, j) { ScannerRefinesAutomaton(content, j); }
    page, rewritten := Substitute(content, matches, commentSpans, commented);
  }

  /** The flag that widens the page's policy is set only for a reason: without it the page is the artifact. */
  lemma {:induction false} UnsetMeansUntouched(s: string, matches: seq<Match>, pos: nat, commented: int -> bool)
    requires pos <= |s| && Ordered(matches, pos, |s|)
        && forall j | 0 <= j < |matches| :: !Replaced(matches[j], commented)
    ensures Rewritten(s, matches, pos, commented) == s[pos..]
    decreases |matches|
  {
    if matches != [] {
      UnsetMeansUntouched(s, matches[1..], matches[0].end, commented);
      Rejoin(s, pos, matches[0].start, matches[0].end);
    }
  }

  lemma Rejoin(s: string, a: nat, b: nat, c: nat)
    requires a <= b <= c <= |s|
    ensures s[a..b] + (s[b..c] + s[c..]) == s[a..]
  {
  }

  /** A tag that starts in a comment is in the page as it stood, whatever is replaced around it. */
  lemma {:induction false} CommentedTagsSurvive(s: string, matches: seq<Match>, pos: nat, commented: int -> bool,
                                                k: nat)
      returns (before: string, after: string)
    requires pos <= |s| && Ordered(matches, pos, |s|)
    requires k < |matches| && commented(matches[k].start)
    ensures Rewritten(s, matches, pos, commented) == before + (s[matches[k].start..matches[k].end] + after)
    decreases |matches|
  {
    var gap := s[pos..matches[0].start];
    var rest := Rewritten(s, matches[1..], matches[0].end, commented);
    if k == 0 {
      before, after := gap, rest;
    } else {
      before, after := CommentedTagsSurvive(s, matches[1..], matches[0].end, commented, k - 1);
      var tag := s[matches[k].start..matches[k].end];
      Regrouped(gap, Piece(s, matches[0], commented), before, tag + after);
      before := gap + Piece(s, matches[0], commented) + before;
    }
  }

  lemma Regrouped(a: string, b: string, c: string, d: string)
    ensures a + (b + (c + d)) == (a + b + c) + d
  {
  }

  // ---- where every tag ends up ----

  lemma OrderedFront(matches: seq<Match>, lo: nat, hi: nat, k: nat)
    requires Ordered(matches, lo, hi) && k < |matches|
    ensures lo <= matches[k].start < matches[k].end <= hi
    ensures Ordered(matches[..k], lo, matches[k].start) && Ordered(matches[k + 1..], matches[k].end, hi)
  {
  }

  /** The part before tag `k` rewrites as the whole does, one tag at a time. */
  lemma FrontStep(s: string, matches: seq<Match>, pos: nat, commented: int -> bool, k: nat)
    requires pos <= |s| && Ordered(matches, pos, |s|) && 0 < k < |matches|
    ensures pos <= matches[0].start <= matches[0].end <= matches[k].start <= |s|
    ensures Ordered(matches[..k], pos, matches[k].start)
    ensures Ordered(matches[1..][..k - 1], matches[0].end, matches[k].start)
    ensures var front := s[..matches[k].start];
            Rewritten(front, matches[..k], pos, commented) ==
            s[pos..matches[0].start]
            + (Piece(s, matches[0], commented) + Rewritten(front, matches[1..][..k - 1], matches[0].end, commented))
  {
    var first, front := matches[0], s[..matches[k].start];
    assert first.end <= matches[k].start;
    assert matches[..k][0] == first && matches[..k][1..] == matches[1..][..k - 1];
    assert front[pos..first.start] == s[pos..first.start];
    assert front[first.start..first.end] == s[first.start..first.end];
  }

  /** The page is made of what comes before a tag, rewritten by itself, the tag or the asset that replaces it, and what
      comes after, rewritten by itself: for every tag, whatever the others are. */
  lemma {:induction false} EveryTagStands(s: string, matches: seq<Match>, pos: nat, commented: int -> bool, k: nat)
    requires pos <= |s| && Ordered(matches, pos, |s|) && k < |matches|
    ensures var m := matches[k];
            && pos <= m.start < m.end <= |s|
            && Ordered(matches[..k], pos, m.start) && Ordered(matches[k + 1..], m.end, |s|)
            && var here := if m.asset.Some? && !commented(m.start) then m.asset.value else s[m.start..m.end];
               Rewritten(s, matches, pos, commented) ==
               Rewritten(s[..m.start], matches[..k], pos, commented)
               + (here + Rewritten(s, matches[k + 1..], m.end, commented))
    decreases |matches|
  {
    OrderedFront(matches, pos, |s|, k);
    var first, front := matches[0], s[..matches[k].start];
    var rest := Piece(s, matches[k], commented) + Rewritten(s, matches[k + 1..], matches[k].end, commented);
    if k == 0 {
      assert matches[..0] == [] && front[pos..] == s[pos..first.start];
    } else {
      EveryTagStands(s, matches[1..], first.end, commented, k - 1);
      FrontStep(s, matches, pos, commented, k);
      assert matches[1..][k - 1] == matches[k] && matches[1..][k - 1 + 1..] == matches[k + 1..];
      Associate(s[pos..first.start], Piece(s, first, commented),
                Rewritten(front, matches[1..][..k - 1], first.end, commented), rest);
    }
  }
}
