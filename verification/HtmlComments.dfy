/** The HTML-comment scanner of view.py: a find loop that refines a two-state automaton. */
module HtmlComments {
  import opened Basics

  const OPEN := "<!--"
  const CLOSE := "-->"

  datatype Span = Span(start: nat, end: nat)

  predicate At(s: string, sub: string, i: int) {
    0 <= i && i + |sub| <= |s| && forall k | 0 <= k < |sub| :: s[i + k] == sub[k]
  }

  /** `s.find(sub, start)`: the least occurrence from `start` on, or nothing. */
  function Find(s: string, sub: string, start: nat): (found: Option<nat>)
    ensures found.Some? ==> start <= found.value && found.value + |sub| <= |s|
    decreases |s| - start
  {
    if start + |sub| > |s| then None
    else if At(s, sub, start) then Some(start)
    else Find(s, sub, start + 1)
  }

  lemma {:induction false} FindIsLeast(s: string, sub: string, start: nat)
    ensures var found := Find(s, sub, start);
            && (found.Some? ==> At(s, sub, found.value) && forall i | start <= i < found.value :: !At(s, sub, i))
            && (found.None? ==> forall i | start <= i :: !At(s, sub, i))
    decreases |s| - start
  {
    if start + |sub| <= |s| && !At(s, sub, start) { FindIsLeast(s, sub, start + 1); }
  }

  // ---- the automaton ----

  /** Whether position `j` belongs to a comment, reading the text left to right from `i` in one of
      two states: outside a comment, where an opening is awaited, or inside one, where a closing is. */
  predicate InComment(s: string, i: nat, inside: bool, j: int)
    requires i <= |s|
    decreases |s| - i
  {
    if i == |s| then false
    else if !inside then
      if At(s, OPEN, i) then i <= j < i + 4 || InComment(s, i + 4, true, j)
      else InComment(s, i + 1, false, j)
    else
      if At(s, CLOSE, i) then i <= j < i + 3 || InComment(s, i + 3, false, j)
      else i == j || InComment(s, i + 1, true, j)
  }

  predicate Covers(spans: seq<Span>, i: int) {
    exists k | 0 <= k < |spans| :: spans[k].start <= i < spans[k].end
  }

  /** Ordered, disjoint, non-empty, inside `lo`..`hi`. */
  predicate Tidy(spans: seq<Span>, lo: nat, hi: nat) {
    && (forall k | 0 <= k < |spans| :: lo <= spans[k].start < spans[k].end <= hi)
    && (forall j, k | 0 <= j < k < |spans| :: spans[j].end <= spans[k].start)
  }

  // ---- the loop, as a recursion over its position ----

  function SpansFrom(s: string, pos: nat): seq<Span>
    requires pos <= |s|
    decreases |s| - pos
  {
    var start := Find(s, OPEN, pos);
    if start.None? then []
    else
      var end := Find(s, CLOSE, start.value + 4);
      if end.None? then [Span(start.value, |s|)]
      else [Span(start.value, end.value + 3)] + SpansFrom(s, end.value + 3)
  }

  function Spans(s: string): seq<Span> { SpansFrom(s, 0) }

  /** _find_html_comment_spans */
  method FindHtmlCommentSpans(content: string) returns (spans: seq<Span>)
    ensures spans == Spans(content)
  {
    if Find(content, OPEN, 0).None? { return []; }
    spans := [];
    var pos: nat := 0;
    ghost var rest := Spans(content);
    while true
      invariant pos <= |content| && rest == SpansFrom(content, pos)
      invariant Spans(content) == spans + rest
      decreases |content| - pos
    {
      var start := Find(content, OPEN, pos);
      if start.None? { break; }
      var end := Find(content, CLOSE, start.value + 4);
      if end.None? {
        spans := spans + [Span(start.value, |content|)];
        break;
      }
      rest := SpansFrom(content, end.value + 3);
      Regroup(spans, Span(start.value, end.value + 3), rest);
      spans := spans + [Span(start.value, end.value + 3)];
      pos := end.value + 3;
    }
  }

  lemma Regroup(before: seq<Span>, middle: Span, after: seq<Span>)
    ensures before + ([middle] + after) == (before + [middle]) + after
  {
  }

  // ---- the spans are what the automaton covers ----

  lemma {:induction false} SpansTidy(s: string, pos: nat)
    requires pos <= |s|
    ensures Tidy(SpansFrom(s, pos), pos, |s|)
    decreases |s| - pos
  {
    var start := Find(s, OPEN, pos);
    if start.Some? {
      var end := Find(s, CLOSE, start.value + 4);
      if end.Some? { SpansTidy(s, end.value + 3); }
    }
  }

  /** Outside a comment, nothing is covered before the next opening. */
  lemma {:induction false} ScanOutside(s: string, i: nat, stop: nat, j: int)
    requires i <= stop <= |s| && forall k | i <= k < stop :: !At(s, OPEN, k)
    ensures InComment(s, i, false, j) <==> InComment(s, stop, false, j)
    decreases stop - i
  {
    if i < stop { ScanOutside(s, i + 1, stop, j); }
  }

  /** Inside a comment, everything is covered before the next closing. */
  lemma {:induction false} ScanInside(s: string, i: nat, stop: nat, j: int)
    requires i <= stop <= |s| && forall k | i <= k < stop :: !At(s, CLOSE, k)
    ensures InComment(s, i, true, j) <==> i <= j < stop || InComment(s, stop, true, j)
    decreases stop - i
  {
    if i < stop { ScanInside(s, i + 1, stop, j); }
  }

  /** From an opening with a closing: all up to the closing's end is covered, then the scan is outside. */
  lemma ScanClosed(s: string, start: nat, end: nat, j: int)
    requires At(s, OPEN, start) && Find(s, CLOSE, start + 4) == Some(end)
    ensures InComment(s, start, false, j) <==> start <= j < end + 3 || InComment(s, end + 3, false, j)
  {
    FindIsLeast(s, CLOSE, start + 4);
    ScanInside(s, start + 4, end, j);
  }

  /** From an opening without one, all the rest is covered. */
  lemma ScanUnclosed(s: string, start: nat, j: int)
    requires At(s, OPEN, start) && Find(s, CLOSE, start + 4).None?
    ensures InComment(s, start, false, j) <==> start <= j < |s|
  {
    FindIsLeast(s, CLOSE, start + 4);
    ScanInside(s, start + 4, |s|, j);
  }

  lemma CoversCons(first: Span, rest: seq<Span>, j: int)
    ensures Covers([first] + rest, j) <==> first.start <= j < first.end || Covers(rest, j)
  {
    var spans := [first] + rest;
    if first.start <= j < first.end { assert spans[0] == first; }
    if Covers(rest, j) {
      var k :| 0 <= k < |rest| && rest[k].start <= j < rest[k].end;
      assert spans[k + 1] == rest[k];
    }
  }

  /** A position is in a reported span exactly when the automaton is inside a comment there. */
  lemma {:induction false} SpansAreScan(s: string, pos: nat, j: int)
    requires pos <= |s|
    ensures Covers(SpansFrom(s, pos), j) <==> InComment(s, pos, false, j)
    decreases |s| - pos
  {
    FindIsLeast(s, OPEN, pos);
    match Find(s, OPEN, pos)
    case None => ScanOutside(s, pos, |s|, j);
    case Some(start) =>
      ScanOutside(s, pos, start, j);
      match Find(s, CLOSE, start + 4) {
        case None =>
          ScanUnclosed(s, start, j);
          UnclosedCovers(s, pos, start, j);
        case Some(end) =>
          ScanClosed(s, start, end, j);
          SpansAreScan(s, end + 3, j);
          ClosedCovers(s, pos, start, end, j);
      }
  }

  lemma UnclosedCovers(s: string, pos: nat, start: nat, j: int)
    requires pos <= |s| && Find(s, OPEN, pos) == Some(start) && Find(s, CLOSE, start + 4).None?
    ensures Covers(SpansFrom(s, pos), j) <==> start <= j < |s|
  {
    CoversCons(Span(start, |s|), [], j);
    assert SpansFrom(s, pos) == [Span(start, |s|)];
  }

  lemma ClosedCovers(s: string, pos: nat, start: nat, end: nat, j: int)
    requires pos <= |s| && Find(s, OPEN, pos) == Some(start) && Find(s, CLOSE, start + 4) == Some(end)
    ensures Covers(SpansFrom(s, pos), j) <==> start <= j < end + 3 || Covers(SpansFrom(s, end + 3), j)
  {
    CoversCons(Span(start, end + 3), SpansFrom(s, end + 3), j);
  }

  /** The scanner reports ordered, disjoint spans inside the text, and covers exactly what the
      automaton calls a comment. */
  lemma ScannerRefinesAutomaton(s: string, j: int)
    ensures Tidy(Spans(s), 0, |s|)
    ensures Covers(Spans(s), j) <==> InComment(s, 0, false, j)
  {
    SpansTidy(s, 0);
    SpansAreScan(s, 0, j);
  }

  /** What the automaton says of each position. */
  function CommentedOut(s: string): int -> bool { j => InComment(s, 0, false, j) }

  // ---- stripping ----

  /** The text between the spans, from `pos` on. */
  function Gaps(s: string, spans: seq<Span>, pos: nat): string
    requires pos <= |s| && Tidy(spans, pos, |s|)
    decreases |spans|
  {
    if spans == [] then s[pos..]
    else s[pos..spans[0].start] + Gaps(s, spans[1..], spans[0].end)
  }

  lemma TidyTail(spans: seq<Span>, lo: nat, hi: nat)
    requires Tidy(spans, lo, hi) && spans != []
    ensures lo <= spans[0].start <= spans[0].end <= hi && Tidy(spans[1..], spans[0].end, hi)
  {
  }

  /** _strip_spans */
  method StripSpans(content: string, spans: seq<Span>) returns (kept: string)
    requires Tidy(spans, 0, |content|)
    ensures kept == Gaps(content, spans, 0)
  {
    if spans == [] { return content; }
    kept := "";
    var pos: nat := 0;
    for k := 0 to |spans|
      invariant pos <= |content| && Tidy(spans[k..], pos, |content|)
      invariant kept + Gaps(content, spans[k..], pos) == Gaps(content, spans, 0)
    {
      assert spans[k..][0] == spans[k] && spans[k..][1..] == spans[k + 1..];
      TidyTail(spans[k..], pos, |content|);
      kept := kept + content[pos..spans[k].start];
      pos := spans[k].end;
    }
    kept := kept + content[pos..];
  }

  function Strip(s: string): string {
    SpansTidy(s, 0);
    Gaps(s, Spans(s), 0)
  }

  /** The characters from `pos` on that are not `covered`, in order. */
  function Uncovered(s: string, pos: nat, covered: int -> bool): string
    requires pos <= |s|
    decreases |s| - pos
  {
    if pos == |s| then [] else (if covered(pos) then [] else [s[pos]]) + Uncovered(s, pos + 1, covered)
  }

  lemma {:induction false} CoveredStretch(s: string, pos: nat, stop: nat, covered: int -> bool)
    requires pos <= stop <= |s| && forall j | pos <= j < stop :: covered(j)
    ensures Uncovered(s, pos, covered) == Uncovered(s, stop, covered)
    decreases stop - pos
  {
    if pos < stop { CoveredStretch(s, pos + 1, stop, covered); }
  }

  lemma {:induction false} ClearStretch(s: string, pos: nat, stop: nat, covered: int -> bool)
    requires pos <= stop <= |s| && forall j | pos <= j < stop :: !covered(j)
    ensures Uncovered(s, pos, covered) == s[pos..stop] + Uncovered(s, stop, covered)
    decreases stop - pos
  {
    var rest := Uncovered(s, stop, covered);
    if pos == stop {
      assert s[pos..stop] + rest == rest;
    } else {
      ClearStretch(s, pos + 1, stop, covered);
      assert s[pos..stop] + rest == [s[pos]] + (s[pos + 1..stop] + rest);
    }
  }

  /** The gaps between any tidy spans are the characters those spans leave uncovered. */
  lemma {:induction false} GapsAreUncovered(s: string, spans: seq<Span>, pos: nat, covered: int -> bool)
    requires pos <= |s| && Tidy(spans, pos, |s|)
    requires forall j | pos <= j < |s| :: covered(j) <==> Covers(spans, j)
    ensures Gaps(s, spans, pos) == Uncovered(s, pos, covered)
    decreases |spans|
  {
    if spans == [] {
      ClearStretch(s, pos, |s|, covered);
    } else {
      var first, rest := spans[0], spans[1..];
      assert spans == [first] + rest;
      TidyTail(spans, pos, |s|);
      CoveredAround(first, rest, pos, |s|);
      ClearStretch(s, pos, first.start, covered);
      CoveredStretch(s, first.start, first.end, covered);
      GapsAreUncovered(s, rest, first.end, covered);
    }
  }

  lemma CoveredAround(first: Span, rest: seq<Span>, lo: nat, hi: nat)
    requires Tidy([first] + rest, lo, hi)
    ensures forall j | lo <= j < first.start :: !Covers([first] + rest, j)
    ensures forall j | first.start <= j < first.end :: Covers([first] + rest, j)
    ensures forall j | first.end <= j :: Covers([first] + rest, j) <==> Covers(rest, j)
  {
    forall j ensures Covers([first] + rest, j) <==> first.start <= j < first.end || Covers(rest, j) {
      CoversCons(first, rest, j);
    }
    TidyTail([first] + rest, lo, hi);
    assert ([first] + rest)[1..] == rest;
    forall j | j < first.end ensures !Covers(rest, j) { }
  }

  /** Stripping keeps exactly the characters the automaton leaves outside comments. */
  lemma StripKeepsUncovered(s: string)
    ensures Strip(s) == Uncovered(s, 0, CommentedOut(s))
  {
    SpansTidy(s, 0);
    forall j ensures Covers(Spans(s), j) <==> InComment(s, 0, false, j) { SpansAreScan(s, 0, j); }
    GapsAreUncovered(s, Spans(s), 0, CommentedOut(s));
  }

  /** The pieces stripping keeps: what lies before, between and after the spans. */
  function Kept(s: string, spans: seq<Span>, pos: nat): (pieces: seq<string>)
    requires pos <= |s| && Tidy(spans, pos, |s|)
    ensures |pieces| == |spans| + 1
    decreases |spans|
  {
    if spans == [] then [s[pos..]] else [s[pos..spans[0].start]] + Kept(s, spans[1..], spans[0].end)
  }

  /** The pieces it removes: the spans themselves. */
  function Removed(s: string, spans: seq<Span>, lo: nat): (pieces: seq<string>)
    requires Tidy(spans, lo, |s|)
    ensures |pieces| == |spans|
    decreases |spans|
  {
    if spans == [] then [] else [s[spans[0].start..spans[0].end]] + Removed(s, spans[1..], spans[0].end)
  }

  function Join(pieces: seq<string>): string {
    if pieces == [] then "" else pieces[0] + Join(pieces[1..])
  }

  /** One piece of each in turn, beginning and ending with a kept one. */
  function Weave(kept: seq<string>, removed: seq<string>): string
    requires |kept| == |removed| + 1
  {
    if removed == [] then kept[0] else kept[0] + (removed[0] + Weave(kept[1..], removed[1..]))
  }

  /** The kept pieces joined are what stripping returns; kept and removed pieces in turn are the text. */
  lemma {:induction false} KeptPlusRemoved(s: string, spans: seq<Span>, pos: nat)
    requires pos <= |s| && Tidy(spans, pos, |s|)
    ensures Join(Kept(s, spans, pos)) == Gaps(s, spans, pos)
    ensures Weave(Kept(s, spans, pos), Removed(s, spans, pos)) == s[pos..]
    decreases |spans|
  {
    if spans == [] {
      assert [s[pos..]][1..] == [];
    } else {
      TidyTail(spans, pos, |s|);
      KeptPlusRemoved(s, spans[1..], spans[0].end);
      WeaveStep(s[pos..spans[0].start], Kept(s, spans[1..], spans[0].end),
                s[spans[0].start..spans[0].end], Removed(s, spans[1..], spans[0].end));
      Rejoined(s, pos, spans[0].start, spans[0].end);
    }
  }

  lemma WeaveStep(gap: string, kept: seq<string>, comment: string, removed: seq<string>)
    requires |kept| == |removed| + 1
    ensures Join([gap] + kept) == gap + Join(kept)
    ensures Weave([gap] + kept, [comment] + removed) == gap + (comment + Weave(kept, removed))
  {
    assert ([gap] + kept)[1..] == kept && ([comment] + removed)[1..] == removed;
  }

  lemma Rejoined(s: string, a: nat, b: nat, c: nat)
    requires a <= b <= c <= |s|
    ensures s[a..b] + (s[b..c] + s[c..]) == s[a..]
  {
  }

  lemma {:induction false} LengthsAdd(s: string, spans: seq<Span>, pos: nat)
    requires pos <= |s| && Tidy(spans, pos, |s|)
    ensures |Gaps(s, spans, pos)| + RemovedLength(spans) == |s| - pos
    decreases |spans|
  {
    if spans != [] {
      TidyTail(spans, pos, |s|);
      LengthsAdd(s, spans[1..], spans[0].end);
    }
  }

  function RemovedLength(spans: seq<Span>): int {
    if spans == [] then 0 else spans[0].end - spans[0].start + RemovedLength(spans[1..])
  }

  // ---- stripping twice ----

  lemma NoOpenNoChange(s: string)
    ensures Find(s, OPEN, 0).None? ==> Strip(s) == s
  {
    SpansTidy(s, 0);
    if Find(s, OPEN, 0).None? { assert Spans(s) == []; }
  }

  lemma OpenShrinks(s: string)
    ensures Find(s, OPEN, 0).Some? ==> |Strip(s)| < |s|
  {
    SpansTidy(s, 0);
    if Find(s, OPEN, 0).Some? {
      LengthsAdd(s, Spans(s), 0);
      RemovedPositive(Spans(s), 0, |s|);
    }
  }

  lemma {:induction false} RemovedPositive(spans: seq<Span>, lo: nat, hi: nat)
    requires Tidy(spans, lo, hi)
    ensures RemovedLength(spans) >= |spans|
  {
    if spans != [] { RemovedPositive(spans[1..], lo, hi); }
  }

  /** The uncovered positions from `pos` on, in order. */
  function Positions(s: string, pos: nat, covered: int -> bool): (places: seq<nat>)
    requires pos <= |s|
    ensures |places| == |Uncovered(s, pos, covered)|
    decreases |s| - pos
  {
    if pos == |s| then [] else (if covered(pos) then [] else [pos]) + Positions(s, pos + 1, covered)
  }

  /** `p` lists uncovered positions with nothing but covered ones between them, and they spell `word`. */
  predicate Spells(s: string, covered: int -> bool, p: seq<nat>, word: string) {
    && |p| == |word|
    && (forall i | 0 <= i < |p| :: p[i] < |s| && !covered(p[i]) && s[p[i]] == word[i])
    && (forall i | 0 <= i < |p| - 1 :: p[i] < p[i + 1] && ClearBetween(covered, p[i], p[i + 1]))
  }

  predicate ClearBetween(covered: int -> bool, lo: int, hi: int) {
    forall j | lo < j < hi :: covered(j)
  }

  /** Neighbours on the list have only covered positions between them. */
  predicate Chained(covered: int -> bool, places: seq<nat>) {
    forall i | 0 <= i < |places| - 1 :: places[i] < places[i + 1] && ClearBetween(covered, places[i], places[i + 1])
  }

  lemma ChainedCons(covered: int -> bool, first: nat, rest: seq<nat>)
    requires Chained(covered, rest)
    requires rest != [] ==> first < rest[0] && ClearBetween(covered, first, rest[0])
    ensures Chained(covered, [first] + rest)
  {
    var places := [first] + rest;
    forall i | 0 <= i < |places| - 1
        ensures places[i] < places[i + 1] && ClearBetween(covered, places[i], places[i + 1]) {
      if i > 0 { assert places[i] == rest[i - 1] && places[i + 1] == rest[i - 1 + 1]; }
    }
  }

  lemma {:induction false} PositionsChained(s: string, pos: nat, covered: int -> bool)
    requires pos <= |s|
    ensures var places := Positions(s, pos, covered);
            && Chained(covered, places)
            && (places != [] ==> pos <= places[0] && ClearBetween(covered, pos - 1, places[0]))
    decreases |s| - pos
  {
    if pos < |s| {
      PositionsChained(s, pos + 1, covered);
      if !covered(pos) { ChainedCons(covered, pos, Positions(s, pos + 1, covered)); }
    }
  }

  /** Each listed position is uncovered, and its character is the one at that place of the uncovered text. */
  lemma {:induction false} PositionAt(s: string, pos: nat, covered: int -> bool, i: nat)
    requires pos <= |s| && i < |Positions(s, pos, covered)|
    ensures var q := Positions(s, pos, covered)[i];
            pos <= q < |s| && !covered(q) && Uncovered(s, pos, covered)[i] == s[q]
    decreases |s| - pos
  {
    if covered(pos) {
      PositionAt(s, pos + 1, covered, i);
    } else if i > 0 {
      PositionAt(s, pos + 1, covered, i - 1);
    }
  }

  /** Every uncovered position is on the list. */
  lemma {:induction false} OnTheList(s: string, pos: nat, covered: int -> bool, q: nat)
    requires pos <= q < |s| && !covered(q)
    ensures q in Positions(s, pos, covered)
    decreases |s| - pos
  {
    if pos < q { OnTheList(s, pos + 1, covered, q); }
  }

  /** The next uncovered position is the next one on the list. */
  lemma NextOnTheList(s: string, covered: int -> bool, i: nat, q: nat)
    requires i < |Positions(s, 0, covered)|
    requires Positions(s, 0, covered)[i] < q < |s| && !covered(q)
        && ClearBetween(covered, Positions(s, 0, covered)[i], q)
    ensures i + 1 < |Positions(s, 0, covered)| && Positions(s, 0, covered)[i + 1] == q
  {
    var places := Positions(s, 0, covered);
    PositionsChained(s, 0, covered);
    PositionAt(s, 0, covered, i);
    OnTheList(s, 0, covered, q);
    var k: nat :| k < |places| && places[k] == q;
    Increasing(covered, places, k, i);
    if k > i + 1 {
      Increasing(covered, places, i + 1, k);
      PositionAt(s, 0, covered, i + 1);
    }
  }

  lemma {:induction false} Increasing(covered: int -> bool, places: seq<nat>, i: nat, j: nat)
    requires i < |places| && j < |places| && Chained(covered, places)
    ensures i < j ==> places[i] < places[j]
    decreases j
  {
    if i < j {
      var k := j - 1;
      assert places[k] < places[k + 1];
      Increasing(covered, places, i, k);
    }
  }

  /** A word stands at place `i` of the uncovered text exactly when the positions listed from `i` on spell it. */
  lemma WordIsSpelled(s: string, covered: int -> bool, word: string, i: nat)
    requires At(Uncovered(s, 0, covered), word, i)
    ensures Spells(s, covered, Positions(s, 0, covered)[i..i + |word|], word)
  {
    var places := Positions(s, 0, covered);
    var p := places[i..i + |word|];
    PositionsChained(s, 0, covered);
    forall k | 0 <= k < |p| ensures p[k] < |s| && !covered(p[k]) && s[p[k]] == word[k] {
      PositionAt(s, 0, covered, i + k);
    }
    forall k | 0 <= k < |p| - 1 ensures p[k] < p[k + 1] && ClearBetween(covered, p[k], p[k + 1]) {
      assert places[i + k] == p[k] && places[i + k + 1] == p[k + 1];
    }
  }

  lemma {:induction false} SpelledIsListed(s: string, covered: int -> bool, p: seq<nat>, word: string, i: nat, n: nat)
    requires Spells(s, covered, p, word) && 0 < n <= |p|
    requires i < |Positions(s, 0, covered)| && Positions(s, 0, covered)[i] == p[0]
    ensures i + n <= |Positions(s, 0, covered)|
    ensures forall k | 0 <= k < n :: Positions(s, 0, covered)[i + k] == p[k]
    decreases n
  {
    if n > 1 {
      SpelledIsListed(s, covered, p, word, i, n - 1);
      var k := n - 2;
      assert Positions(s, 0, covered)[i + k] == p[k] && p[k] < p[k + 1] && ClearBetween(covered, p[k], p[k + 1]);
      NextOnTheList(s, covered, i + n - 2, p[n - 1]);
    }
  }

  lemma SpelledIsAWord(s: string, covered: int -> bool, p: seq<nat>, word: string) returns (i: nat)
    requires Spells(s, covered, p, word) && word != []
    ensures At(Uncovered(s, 0, covered), word, i)
  {
    OnTheList(s, 0, covered, p[0]);
    i :| 0 <= i < |Positions(s, 0, covered)| && Positions(s, 0, covered)[i] == p[0];
    SpelledIsListed(s, covered, p, word, i, |p|);
    forall k | 0 <= k < |word| ensures Uncovered(s, 0, covered)[i + k] == word[k] {
      PositionAt(s, 0, covered, i + k);
    }
  }

  /** The characters of `s` outside its comments, read past the comments, spell an opening somewhere. */
  ghost predicate JoinsAnOpening(s: string) {
    exists p: seq<nat> :: Spells(s, CommentedOut(s), p, OPEN)
  }

  lemma OpeningJoined(s: string)
    ensures Find(Strip(s), OPEN, 0).Some? <==> JoinsAnOpening(s)
  {
    var covered := CommentedOut(s);
    StripKeepsUncovered(s);
    FindIsLeast(Strip(s), OPEN, 0);
    if Find(Strip(s), OPEN, 0).Some? {
      WordIsSpelled(s, covered, OPEN, Find(Strip(s), OPEN, 0).value);
    }
    if p: seq<nat> :| Spells(s, covered, p, OPEN) {
      var i := SpelledIsAWord(s, covered, p, OPEN);
    }
  }

  /** Stripping a second time changes something exactly when, in the text itself, four characters outside
      the comments with nothing but comments between them spell an opening. */
  lemma StripTwiceExactly(s: string)
    ensures Strip(Strip(s)) != Strip(s) <==> JoinsAnOpening(s)
  {
    NoOpenNoChange(Strip(s));
    OpenShrinks(Strip(s));
    OpeningJoined(s);
  }

  const JOINING := "<!<!---->--x"

  lemma JoiningFinds()
    ensures Find(JOINING, OPEN, 0) == Some(2) && Find(JOINING, CLOSE, 6) == Some(6) && Find(JOINING, OPEN, 9).None?
  {
    var s := JOINING;
    assert s[0 + 2] != OPEN[2] && s[1 + 1] != OPEN[1] && s[9 + 0] != OPEN[0];
    assert Find(s, OPEN, 1) == Find(s, OPEN, 2) == Some(2);
    assert Find(s, OPEN, 0) == Find(s, OPEN, 1);
    assert Find(s, OPEN, 9) == Find(s, OPEN, 10) == None;
  }

  /** It can: "<!" and "--x" around an empty comment join to a new opening, and stripping again removes more. */
  lemma StripIsNotIdempotent()
    ensures Strip(JOINING) == "<!--x"
    ensures Strip(Strip(JOINING)) != Strip(JOINING)
  {
    var s := JOINING;
    SpansTidy(s, 0);
    JoiningFinds();
    assert Spans(s) == [Span(2, 9)] + SpansFrom(s, 9) == [Span(2, 9)];
    assert Gaps(s, [Span(2, 9)], 0) == s[0..2] + Gaps(s, [Span(2, 9)][1..], 9);
    assert At("<!--x", OPEN, 0);
    OpenShrinks("<!--x");
  }
}
