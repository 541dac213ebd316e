/** Substitutions one after the other: a later one cuts the text that earlier ones kept, at
    matches of the original text, and never through a token. */
module Refinement {
  import opened Basics
  import opened Regex
  import opened Substitution

  // ---- substituting in a text that already holds tokens

  lemma SubFromMatch(u: Unicode, p: Pattern, s: string, pos: nat)
    requires Sane(p) && pos <= |s| && FindFrom(u, p, s, pos).Some?
    ensures var m := FindFrom(u, p, s, pos).value;
            && pos <= m.0 < m.1 <= |s| && (forall x :: m.0 <= x < m.1 ==> !Bracket(s[x]))
            && (exists b :: b in p.branches && InLanguage(u, b, s[m.0..m.1]))
            && SubFrom(u, p, s, pos) == s[pos..m.0] + p.Token() + SubFrom(u, p, s, m.1)
  {
    FindFromIsLeftmost(u, p, s, pos);
    MatchFacts(u, p, s, FindFrom(u, p, s, pos).value.0, FindFrom(u, p, s, pos).value.1);
  }

  lemma {:induction false} FindFromSkips(u: Unicode, p: Pattern, s: string, pos: nat, stop: nat)
    requires pos <= stop <= |s| && forall i, j :: pos <= i < stop ==> !IsMatch(u, p, s, i, j)
    ensures FindFrom(u, p, s, pos) == FindFrom(u, p, s, stop)
    decreases stop - pos
  {
    if pos < stop {
      MatcherDecides(u, p, s, pos);
      FindFromSkips(u, p, s, pos + 1, stop);
    }
  }

  /** A stretch without a match is copied as it is. */
  lemma SubFromSkips(u: Unicode, p: Pattern, s: string, pos: nat, stop: nat)
    requires Sane(p) && pos <= stop <= |s|
    requires forall i, j :: pos <= i < stop ==> !IsMatch(u, p, s, i, j)
    ensures FindFrom(u, p, s, pos) == FindFrom(u, p, s, stop)
    ensures SubFrom(u, p, s, pos) == s[pos..stop] + SubFrom(u, p, s, stop)
  {
    FindFromSkips(u, p, s, pos, stop);
    FindFromIsLeftmost(u, p, s, stop);
    if FindFrom(u, p, s, stop).None? {
      SplitTail(s, pos, stop, SubFrom(u, p, s, pos), SubFrom(u, p, s, stop));
    } else {
      SubFromMatchLater(u, p, s, pos, stop);
    }
  }

  lemma SplitTail(s: string, pos: nat, stop: nat, whole: string, tail: string)
    requires pos <= stop <= |s| && whole == s[pos..] && tail == s[stop..]
    ensures whole == s[pos..stop] + tail
  {
  }

  lemma SubFromMatchLater(u: Unicode, p: Pattern, s: string, pos: nat, stop: nat)
    requires Sane(p) && pos <= stop <= |s|
    requires FindFrom(u, p, s, stop).Some? && FindFrom(u, p, s, pos) == FindFrom(u, p, s, stop)
    ensures SubFrom(u, p, s, pos) == s[pos..stop] + SubFrom(u, p, s, stop)
  {
    var r := FindFrom(u, p, s, stop);
    SubFromMatch(u, p, s, pos);
    SubFromMatch(u, p, s, stop);
    SplitHead(s, pos, stop, r.value.0, p.Token(), SubFrom(u, p, s, r.value.1), SubFrom(u, p, s, pos),
        SubFrom(u, p, s, stop));
  }

  lemma SplitHead(s: string, a: nat, b: nat, c: nat, t: string, w: string, whole: string, tail: string)
    requires a <= b <= c <= |s| && whole == s[a..c] + t + w && tail == s[b..c] + t + w
    ensures whole == s[a..b] + tail
  {
    assert s[a..c] == s[a..b] + s[b..c];
  }

  /** The text from `y` on shows the cuts' result. */
  ghost predicate Shows(r: string, y: nat, c: Cuts)
    decreases c
  {
    match c
    case End(last) => y + |last| == |r| && r[y..|r|] == last
    case Cut(keep, _, pat, rest) =>
      var b, t := y + |keep|, pat.Token();
      b + |t| <= |r| && r[y..b] == keep && r[b..b + |t|] == t && Shows(r, b + |t|, rest)
  }

  lemma {:induction false} TextShows(r: string, y: nat, c: Cuts)
    requires y <= |r| && r[y..] == After(c)
    ensures Shows(r, y, c)
    decreases c
  {
    match c
    case End(last) =>
      assert r[y..|r|] == r[y..];
    case Cut(keep, _, pat, rest) =>
      CutAt(r, y, keep, pat.Token(), After(rest));
      TextShows(r, y + |keep| + |pat.Token()|, rest);
  }

  /** Cutting inside a kept part gives a shorter kept part in front of the same rest. */
  lemma CutInKeep(r: string, y: nat, keep: string, i: nat, j: nat)
    requires y <= i <= j <= y + |keep| <= |r| && r[y..y + |keep|] == keep
    ensures r[y..i] == keep[..i - y] && r[i..j] == keep[i - y..j - y] && r[j..y + |keep|] == keep[j - y..]
    ensures keep == r[y..i] + r[i..j] + keep[j - y..]
  {
    SliceOfSlice(r, y, y + |keep|, 0, i - y);
    SliceOfSlice(r, y, y + |keep|, i - y, j - y);
    SliceOfSlice(r, y, y + |keep|, j - y, |keep|);
  }

  function Count(c: Cuts): nat {
    if c.End? then 0 else 1 + Count(c.rest)
  }

  function Added(u: Unicode, p: Pattern, r: string, y: nat): set<string>
    requires y <= |r|
  {
    if FindFrom(u, p, r, y).Some? then {p.kind} else {}
  }

  lemma UnionAssociates(a: set<string>, b: set<string>, c: set<string>)
    ensures a + (b + c) == (a + b) + c
  {
  }

  // ---- the replaced parts stand between word boundaries of the original

  predicate IsWordOrNone(u: Unicode, c: Option<char>) {
    c.Some? && IsWord(u, c.value)
  }

  /** The first character of the original text, if it has one. */
  function First(c: Cuts): Option<char> {
    var s := if c.End? then c.last else if c.keep == "" then c.gone else c.keep;
    if s == "" then None else Some(s[0])
  }

  /** The last character of a stretch that `l` stands before. */
  function LastOf(l: Option<char>, s: string): Option<char> {
    if s == "" then l else Some(s[|s| - 1])
  }

  /** Every replaced part stood between word boundaries of the original, in which `l` is the
      character before the cuts. */
  ghost predicate Edges(u: Unicode, l: Option<char>, c: Cuts)
    decreases c
  {
    match c
    case End(_) => true
    case Cut(keep, gone, _, rest) =>
      && gone != ""
      && IsWordOrNone(u, LastOf(l, keep)) != IsWordOrNone(u, Some(gone[0]))
      && IsWordOrNone(u, LastOf(l, gone)) != IsWordOrNone(u, First(rest))
      && Edges(u, LastOf(l, gone), rest)
  }

  /** The cuts begin at the start of the text, or at a word boundary of the original. */
  ghost predicate AtEdge(u: Unicode, l: Option<char>, y: nat, first: Option<char>) {
    (y == 0 && l.None?) || IsWordOrNone(u, l) != IsWordOrNone(u, first)
  }

  lemma BoundariesOf(u: Unicode, p: Pattern, r: string, y: nat)
    requires y <= |r| && FindFrom(u, p, r, y).Some?
    ensures Boundary(u, r, FindFrom(u, p, r, y).value.0) && Boundary(u, r, FindFrom(u, p, r, y).value.1)
  {
    FindFromIsLeftmost(u, p, r, y);
  }

  /** A match in the first kept part stands between word boundaries of the original. */
  lemma EdgesInKeep(u: Unicode, r: string, y: nat, c: Cuts, l: Option<char>, i: nat, j: nat)
    requires c.Cut? && y + |c.keep| <= |r| && r[y..y + |c.keep|] == c.keep
    requires Edges(u, l, c) && AtEdge(u, l, y, First(c))
    requires y <= i < j <= y + |c.keep| && Boundary(u, r, i) && Boundary(u, r, j)
    ensures IsWordOrNone(u, LastOf(l, r[y..i])) != IsWordOrNone(u, Some(r[i]))
    ensures AtEdge(u, Some(r[j - 1]), j, First(c.(keep := c.keep[j - y..])))
    ensures Edges(u, Some(r[j - 1]), c.(keep := c.keep[j - y..]))
  {
    var keep := c.keep;
    forall k | 0 <= k < |keep| ensures r[y + k] == keep[k] { assert r[y..y + |keep|][k] == r[y + k]; }
    assert r[j - 1] == keep[j - 1 - y] && r[i] == keep[i - y];
    if i > y { assert r[i - 1] == r[y..i][i - 1 - y]; }
    var shorter := keep[j - y..];
    if shorter != "" { assert shorter[0] == keep[j - y] == r[j] && shorter[|shorter| - 1] == keep[|keep| - 1]; }
  }

  lemma SameFirst(c: Cuts, c': Cuts)
    requires Before(c) == Before(c') && (c.Cut? ==> c.gone != "") && (c'.Cut? ==> c'.gone != "")
    ensures First(c) == First(c')
  {
    FirstIs(c);
    FirstIs(c');
  }

  lemma FirstIs(c: Cuts)
    requires c.Cut? ==> c.gone != ""
    ensures First(c) == if Before(c) == "" then None else Some(Before(c)[0])
  {
  }

  lemma EdgesOfPiece(u: Unicode, l: Option<char>, r: string, y: nat, i: nat, j: nat, p: Pattern, c1: Cuts)
    requires y <= i < j <= |r| && IsWordOrNone(u, LastOf(l, r[y..i])) != IsWordOrNone(u, Some(r[i]))
    requires IsWordOrNone(u, Some(r[j - 1])) != IsWordOrNone(u, First(c1)) && Edges(u, Some(r[j - 1]), c1)
    ensures Edges(u, l, Cut(r[y..i], r[i..j], p, c1))
  {
    var gone := r[i..j];
    assert gone[0] == r[i] && gone[|gone| - 1] == r[j - 1];
  }

  lemma {:induction false} EdgesOfTrace(u: Unicode, p: Pattern, r: string, y: nat, l: Option<char>)
    requires Sane(p) && y <= |r| && AtEdge(u, l, y, CharAt(r, y))
    ensures Edges(u, l, Trace(u, p, r, y))
    decreases |r| - y
  {
    if FindFrom(u, p, r, y).Some? {
      var i, j := FindFrom(u, p, r, y).value.0, FindFrom(u, p, r, y).value.1;
      BoundariesOf(u, p, r, y);
      FindFromIsLeftmost(u, p, r, y);
      MatchFacts(u, p, r, i, j);
      EdgesOfTrace(u, p, r, j, Some(r[j - 1]));
      TraceStarts(u, p, r, j);
      EdgeBefore(u, r, y, i, l);
      EdgesOfPiece(u, l, r, y, i, j, p, Trace(u, p, r, j));
    }
  }

  function CharAt(r: string, y: nat): Option<char>
    requires y <= |r|
  {
    if y == |r| then None else Some(r[y])
  }

  lemma EdgeBefore(u: Unicode, r: string, y: nat, i: nat, l: Option<char>)
    requires y <= i < |r| && AtEdge(u, l, y, CharAt(r, y)) && Boundary(u, r, i)
    ensures IsWordOrNone(u, LastOf(l, r[y..i])) != IsWordOrNone(u, Some(r[i]))
  {
    if i > y { assert r[y..i][i - 1 - y] == r[i - 1]; }
  }

  lemma TraceStarts(u: Unicode, p: Pattern, r: string, y: nat)
    requires Sane(p) && y <= |r|
    ensures var c := Trace(u, p, r, y);
            (c.Cut? ==> c.gone != "") && First(c) == CharAt(r, y)
  {
    var f := FindFrom(u, p, r, y);
    if f.Some? {
      FindFromIsLeftmost(u, p, r, y);
      MatchFacts(u, p, r, f.value.0, f.value.1);
    }
  }

  /** Every replaced part is a match of its pattern in the original, word boundaries
      included; the cuts begin at `x` there. */
  ghost predicate Matched(u: Unicode, s: string, x: nat, c: Cuts)
    decreases c
  {
    match c
    case End(_) => true
    case Cut(keep, gone, pat, rest) =>
      IsMatch(u, pat, s, x + |keep|, x + |keep| + |gone|) && Matched(u, s, x + |keep| + |gone|, rest)
  }

  ghost predicate IsWordOf(u: Unicode, p: Pattern, w: string) {
    exists b :: b in p.branches && InLanguage(u, b, w)
  }

  /** What stands between word boundaries is a match if and only if it is a word. */
  lemma WordIsMatch(u: Unicode, p: Pattern, s: string, a: int, b: int, front: string, gone: string, back: string)
    requires s == front + gone + back && a == |front| && b == a + |gone| && gone != ""
    requires IsWordOrNone(u, LastOf(None, front)) != IsWordOrNone(u, Some(gone[0]))
    requires IsWordOrNone(u, Some(gone[|gone| - 1])) != IsWordOrNone(u, if back == "" then None else Some(back[0]))
    ensures IsMatch(u, p, s, a, b) <==> IsWordOf(u, p, gone)
  {
    assert s[a..b] == gone;
  }

  lemma Regroup(front: string, keep: string, gone: string, tail: string)
    ensures front + (keep + gone + tail) == front + keep + gone + tail
    ensures |front + keep| == |front| + |keep| && |front + keep + gone| == |front| + |keep| + |gone|
  {
  }

  lemma LastOfTwo(front: string, part: string)
    ensures LastOf(None, front + part) == LastOf(LastOf(None, front), part)
  {
  }

  /** The cuts lie in `s` behind `front`, the replaced parts between word boundaries. */
  ghost predicate Placed(u: Unicode, s: string, x: nat, front: string, c: Cuts) {
    s == front + Before(c) && x == |front| && Edges(u, LastOf(None, front), c)
  }

  lemma RestIsPlaced(u: Unicode, s: string, x: nat, front: string, c: Cuts) returns (next: string)
    requires c.Cut? && Placed(u, s, x, front, c)
    ensures Placed(u, s, x + |c.keep| + |c.gone|, next, c.rest)
  {
    next := front + c.keep + c.gone;
    Regroup(front, c.keep, c.gone, Before(c.rest));
    LastOfTwo(front, c.keep);
    LastOfTwo(front + c.keep, c.gone);
  }

  lemma GoneIsBounded(u: Unicode, front: string, c: Cuts)
    requires c.Cut? && Edges(u, LastOf(None, front), c)
    ensures c.gone != "" && IsWordOrNone(u, LastOf(None, front + c.keep)) != IsWordOrNone(u, Some(c.gone[0]))
    ensures IsWordOrNone(u, Some(c.gone[|c.gone| - 1])) !=
            IsWordOrNone(u, if Before(c.rest) == "" then None else Some(Before(c.rest)[0]))
  {
    LastOfTwo(front, c.keep);
    assert Edges(u, LastOf(LastOf(None, front), c.gone), c.rest);
    FirstIs(c.rest);
  }

  lemma FirstGoneMatches(u: Unicode, s: string, x: nat, front: string, c: Cuts)
    requires c.Cut? && Placed(u, s, x, front, c)
    ensures IsMatch(u, c.pat, s, x + |c.keep|, x + |c.keep| + |c.gone|) <==> IsWordOf(u, c.pat, c.gone)
  {
    var head, tail := FirstParts(u, s, x, front, c);
    WordIsMatch(u, c.pat, s, x + |c.keep|, x + |c.keep| + |c.gone|, head, c.gone, tail);
  }

  lemma FirstParts(u: Unicode, s: string, x: nat, front: string, c: Cuts) returns (head: string, tail: string)
    requires c.Cut? && Placed(u, s, x, front, c)
    ensures s == head + c.gone + tail && x + |c.keep| == |head| && c.gone != ""
    ensures IsWordOrNone(u, LastOf(None, head)) != IsWordOrNone(u, Some(c.gone[0]))
    ensures IsWordOrNone(u, Some(c.gone[|c.gone| - 1])) != IsWordOrNone(u, if tail == "" then None else Some(tail[0]))
  {
    head, tail := front + c.keep, Before(c.rest);
    Regroup(front, c.keep, c.gone, tail);
    GoneIsBounded(u, front, c);
  }

  lemma OneMoreMatched(u: Unicode, s: string, x: nat, c: Cuts, first: bool)
    requires c.Cut? && (Matched(u, s, x + |c.keep| + |c.gone|, c.rest) <==> Justified(u, c.rest))
    requires first <==> IsMatch(u, c.pat, s, x + |c.keep|, x + |c.keep| + |c.gone|)
    requires first <==> IsWordOf(u, c.pat, c.gone)
    ensures Matched(u, s, x, c) <==> Justified(u, c)
  {
  }

  lemma FirstCutMatches(u: Unicode, s: string, x: nat, front: string, c: Cuts)
    requires c.Cut? && Placed(u, s, x, front, c)
    requires Matched(u, s, x + |c.keep| + |c.gone|, c.rest) <==> Justified(u, c.rest)
    ensures Matched(u, s, x, c) <==> Justified(u, c)
  {
    FirstGoneMatches(u, s, x, front, c);
    OneMoreMatched(u, s, x, c, IsMatch(u, c.pat, s, x + |c.keep|, x + |c.keep| + |c.gone|));
  }

  /** Between word boundaries the replaced parts are matches of the original if and only if
      they are words of their patterns. */
  lemma {:induction false} EdgesMakeMatches(u: Unicode, s: string, x: nat, front: string, c: Cuts)
    requires Placed(u, s, x, front, c)
    ensures Matched(u, s, x, c) <==> Justified(u, c)
    decreases c
  {
    if c.Cut? {
      var next := RestIsPlaced(u, s, x, front, c);
      EdgesMakeMatches(u, s, x + |c.keep| + |c.gone|, next, c.rest);
      FirstCutMatches(u, s, x, front, c);
    }
  }

  /** Cuts by patterns of `ps`, each of a word of its pattern that stood between word
      boundaries of the original; `l` is what stands before them there. */
  ghost predicate Sound(u: Unicode, l: Option<char>, c: Cuts, ps: set<Pattern>) {
    match c
    case End(_) => true
    case Cut(_, _, _, _) => SaneTokens(c) && Justified(u, c) && OnlyBy(c, ps) && Edges(u, l, c)
  }

  /** Substituting in the text after earlier cuts refines the cuts: the same original
      text, with some kept parts cut further, at word boundaries of the original.  `y` is
      where the cuts begin in the present text `r`. */
  lemma {:induction false} SubRefinesCuts(u: Unicode, p: Pattern, r: string, y: nat, c: Cuts, l: Option<char>,
                                          ps: set<Pattern>)
    returns (c': Cuts)
    requires Sane(p) && p in ps && y <= |r| && Shows(r, y, c) && Sound(u, l, c, ps) && AtEdge(u, l, y, First(c))
    ensures Sound(u, l, c', ps)
    ensures Before(c') == Before(c) && After(c') == SubFrom(u, p, r, y)
    ensures Kinds(c') == Kinds(c) + Added(u, p, r, y)
    decreases Count(c), |r| - y
  {
    if c.End? {
      c' := RefineEnd(u, p, r, y, c, l, ps);
    } else {
      var f := FindFrom(u, p, r, y);
      if f.Some? && f.value.0 < y + |c.keep| {
        c' := RefineKeep(u, p, r, y, c, l, ps);
      } else {
        c' := RefineRest(u, p, r, y, c, l, ps);
      }
    }
  }

  lemma RefineEnd(u: Unicode, p: Pattern, r: string, y: nat, c: Cuts, l: Option<char>, ps: set<Pattern>)
    returns (c': Cuts)
    requires Sane(p) && p in ps && y <= |r| && Shows(r, y, c) && c.End? && AtEdge(u, l, y, First(c))
    ensures Sound(u, l, c', ps)
    ensures Before(c') == Before(c) && After(c') == SubFrom(u, p, r, y)
    ensures Kinds(c') == Kinds(c) + Added(u, p, r, y)
  {
    TraceIsSub(u, p, r, y);
    TraceIsClear(u, p, p, r, y);
    c' := Trace(u, p, r, y);
    OnlyByMore(c', {p}, ps);
    assert r[y..] == r[y..|r|] == c.last;
    if y < |r| { assert c.last[0] == r[y]; }
    EdgesOfTrace(u, p, r, y, l);
  }

  lemma TailShows(r: string, y: nat, c: Cuts, j: nat)
    requires Shows(r, y, c) && c.Cut? && y <= j <= y + |c.keep|
    ensures Shows(r, j, c.(keep := c.keep[j - y..]))
  {
    CutInKeep(r, y, c.keep, j, j);
    assert j + |c.keep[j - y..]| == y + |c.keep|;
  }

  lemma BeforeCutKeep(c: Cuts, a: string, b: string, keep: string, p: Pattern, c1: Cuts)
    requires c.Cut? && c.keep == a + b + keep && Before(c1) == Before(c.(keep := keep))
    ensures Before(Cut(a, b, p, c1)) == Before(c)
  {
    var t := c.gone + Before(c.rest);
    assert Before(c1) == keep + t;
    assert Before(c) == (a + b + keep) + t;
  }

  /** Where the next match lies in the first kept part, and what is cut after it. */
  ghost predicate NextInKeep(u: Unicode, p: Pattern, r: string, y: nat, c: Cuts, l: Option<char>, i: nat, j: nat,
                             c2: Cuts)
    requires Sane(p)
  {
    match c
    case End(_) => false
    case Cut(keep, gone, pat, rest) =>
      && y <= i < j <= y + |keep| <= |r| && c2 == Cut(keep[j - y..], gone, pat, rest)
      && keep == r[y..i] + r[i..j] + keep[j - y..]
      && (exists b :: b in p.branches && InLanguage(u, b, r[i..j]))
      && FindFrom(u, p, r, y).Some? && SubFrom(u, p, r, y) == r[y..i] + p.Token() + SubFrom(u, p, r, j)
      && IsWordOrNone(u, LastOf(l, r[y..i])) != IsWordOrNone(u, Some(r[i]))
      && AtEdge(u, Some(r[j - 1]), j, First(c2))
  }

  lemma EndsInKeep(r: string, y: nat, c: Cuts, i: nat, j: nat)
    requires c.Cut? && Shows(r, y, c) && y <= i < y + |c.keep| && i < j <= |r|
    requires forall x :: i <= x < j ==> !Bracket(r[x])
    ensures j <= y + |c.keep|
  {
    TokenStarts(c.pat, r, y + |c.keep|);
  }

  lemma FindInKeep(u: Unicode, p: Pattern, r: string, y: nat, c: Cuts, l: Option<char>, ps: set<Pattern>)
    returns (i: nat, j: nat, c2: Cuts)
    requires Sane(p) && y <= |r| && Shows(r, y, c) && Sound(u, l, c, ps) && AtEdge(u, l, y, First(c)) && c.Cut?
    requires FindFrom(u, p, r, y).Some? && FindFrom(u, p, r, y).value.0 < y + |c.keep|
    ensures NextInKeep(u, p, r, y, c, l, i, j, c2)
    ensures Shows(r, j, c2) && Sound(u, Some(r[j - 1]), c2, ps)
  {
    i, j := FindFrom(u, p, r, y).value.0, FindFrom(u, p, r, y).value.1;
    SubFromMatch(u, p, r, y);
    EndsInKeep(r, y, c, i, j);
    CutInKeep(r, y, c.keep, i, j);
    TailShows(r, y, c, j);
    BoundariesOf(u, p, r, y);
    EdgesInKeep(u, r, y, c, l, i, j);
    c2 := c.(keep := c.keep[j - y..]);
  }

  /** The next match lies in the first kept part. */
  lemma {:induction false} RefineKeep(u: Unicode, p: Pattern, r: string, y: nat, c: Cuts, l: Option<char>,
                                      ps: set<Pattern>)
    returns (c': Cuts)
    requires Sane(p) && p in ps && y <= |r| && Shows(r, y, c) && Sound(u, l, c, ps)
    requires c.Cut? && AtEdge(u, l, y, First(c))
    requires FindFrom(u, p, r, y).Some? && FindFrom(u, p, r, y).value.0 < y + |c.keep|
    ensures Sound(u, l, c', ps)
    ensures Before(c') == Before(c) && After(c') == SubFrom(u, p, r, y)
    ensures Kinds(c') == Kinds(c) + Added(u, p, r, y)
    decreases Count(c), |r| - y, 0
  {
    var i, j, c2 := FindInKeep(u, p, r, y, c, l, ps);
    var c1 := SubRefinesCuts(u, p, r, j, c2, Some(r[j - 1]), ps);
    c' := Cut(r[y..i], r[i..j], p, c1);
    NewCutStays(u, p, r, y, c, l, ps, i, j, c2, c1);
  }

  lemma NewCutStays(u: Unicode, p: Pattern, r: string, y: nat, c: Cuts, l: Option<char>, ps: set<Pattern>,
                    i: nat, j: nat, c2: Cuts, c1: Cuts)
    requires Sane(p) && p in ps && NextInKeep(u, p, r, y, c, l, i, j, c2) && Sound(u, l, c, ps)
    requires Sound(u, Some(r[j - 1]), c1, ps) && Before(c1) == Before(c2) && After(c1) == SubFrom(u, p, r, j)
    requires Kinds(c1) == Kinds(c2) + Added(u, p, r, j)
    ensures var c' := Cut(r[y..i], r[i..j], p, c1);
            && Sound(u, l, c', ps) && Before(c') == Before(c) && After(c') == SubFrom(u, p, r, y)
            && Kinds(c') == Kinds(c) + Added(u, p, r, y)
  {
    BeforeCutKeep(c, r[y..i], r[i..j], c.keep[j - y..], p, c1);
    SameFirst(c2, c1);
    EdgesOfPiece(u, l, r, y, i, j, p, c1);
  }

  /** The next match, if any, lies behind the first token. */
  lemma {:induction false} RefineRest(u: Unicode, p: Pattern, r: string, y: nat, c: Cuts, l: Option<char>,
                                      ps: set<Pattern>)
    returns (c': Cuts)
    requires Sane(p) && p in ps && y <= |r| && Shows(r, y, c) && Sound(u, l, c, ps)
    requires c.Cut? && AtEdge(u, l, y, First(c))
    requires FindFrom(u, p, r, y).Some? ==> FindFrom(u, p, r, y).value.0 >= y + |c.keep|
    ensures Sound(u, l, c', ps)
    ensures Before(c') == Before(c) && After(c') == SubFrom(u, p, r, y)
    ensures Kinds(c') == Kinds(c) + Added(u, p, r, y)
    decreases Count(c), |r| - y, 0
  {
    var y' := RestOfCuts(u, p, r, y, c, l, ps);
    var rest := SubRefinesCuts(u, p, r, y', c.rest, LastOf(l, c.gone), ps);
    c' := c.(rest := rest);
    FirstCutStays(u, c, rest, l, ps, SubFrom(u, p, r, y), SubFrom(u, p, r, y'), Added(u, p, r, y));
  }

  lemma RestOfCuts(u: Unicode, p: Pattern, r: string, y: nat, c: Cuts, l: Option<char>, ps: set<Pattern>)
    returns (y': nat)
    requires Sane(p) && c.Cut? && Sound(u, l, c, ps) && y <= |r| && Shows(r, y, c)
    requires FindFrom(u, p, r, y).Some? ==> FindFrom(u, p, r, y).value.0 >= y + |c.keep|
    ensures y' <= |r| && Shows(r, y', c.rest) && Sound(u, LastOf(l, c.gone), c.rest, ps)
    ensures AtEdge(u, LastOf(l, c.gone), y', First(c.rest)) && Count(c.rest) < Count(c)
    ensures SubFrom(u, p, r, y) == c.keep + c.pat.Token() + SubFrom(u, p, r, y')
    ensures Added(u, p, r, y) == Added(u, p, r, y')
  {
    y' := RestShows(r, y, c);
    RestIsSound(u, c, l, ps);
    SkipFirstCut(u, p, r, y, c, y');
  }

  lemma RestShows(r: string, y: nat, c: Cuts) returns (y': nat)
    requires c.Cut? && y <= |r| && Shows(r, y, c)
    ensures y' == y + |c.keep| + |c.pat.Token()| <= |r| && Shows(r, y', c.rest)
  {
    y' := y + |c.keep| + |c.pat.Token()|;
  }

  lemma RestIsSound(u: Unicode, c: Cuts, l: Option<char>, ps: set<Pattern>)
    requires c.Cut? && Sound(u, l, c, ps)
    ensures Sane(c.pat) && Sound(u, LastOf(l, c.gone), c.rest, ps) && Count(c.rest) < Count(c)
    ensures IsWordOrNone(u, LastOf(l, c.gone)) != IsWordOrNone(u, First(c.rest))
  {
  }

  lemma FirstCutStays(u: Unicode, c: Cuts, rest: Cuts, l: Option<char>, ps: set<Pattern>,
                      whole: string, tail: string, added: set<string>)
    requires c.Cut? && Sound(u, l, c, ps) && Sound(u, LastOf(l, c.gone), rest, ps) && Before(rest) == Before(c.rest)
    requires whole == c.keep + c.pat.Token() + tail && After(rest) == tail && Kinds(rest) == Kinds(c.rest) + added
    ensures var c' := c.(rest := rest);
            Sound(u, l, c', ps) && Before(c') == Before(c) && After(c') == whole && Kinds(c') == Kinds(c) + added
  {
    assert Edges(u, LastOf(l, c.gone), c.rest);
    SameFirst(c.rest, rest);
    UnionAssociates({c.pat.kind}, Kinds(c.rest), added);
  }

  lemma SkipFirstCut(u: Unicode, p: Pattern, r: string, y: nat, c: Cuts, y': nat)
    requires c.Cut? && Sane(p) && Sane(c.pat) && y <= |r| && Shows(r, y, c) && y' == y + |c.keep| + |c.pat.Token()|
    requires FindFrom(u, p, r, y).Some? ==> FindFrom(u, p, r, y).value.0 >= y + |c.keep|
    ensures y' <= |r| && Added(u, p, r, y) == Added(u, p, r, y')
    ensures SubFrom(u, p, r, y) == c.keep + c.pat.Token() + SubFrom(u, p, r, y')
  {
    NoMatchUpTo(u, p, r, y, c);
    SubFromSkips(u, p, r, y, y');
    KeepAndToken(r, y, c);
  }

  lemma KeepAndToken(r: string, y: nat, c: Cuts)
    requires c.Cut? && Shows(r, y, c)
    ensures r[y..y + |c.keep| + |c.pat.Token()|] == c.keep + c.pat.Token()
  {
    var b := y + |c.keep|;
    assert r[y..b + |c.pat.Token()|] == r[y..b] + r[b..b + |c.pat.Token()|];
  }

  lemma NoMatchUpTo(u: Unicode, p: Pattern, r: string, y: nat, c: Cuts)
    requires c.Cut? && Sane(p) && Sane(c.pat) && y <= |r| && Shows(r, y, c)
    requires FindFrom(u, p, r, y).Some? ==> FindFrom(u, p, r, y).value.0 >= y + |c.keep|
    ensures forall i, j :: y <= i < y + |c.keep| + |c.pat.Token()| ==> !IsMatch(u, p, r, i, j)
  {
    FindFromIsLeftmost(u, p, r, y);
    forall i, j | y <= i < y + |c.keep| + |c.pat.Token()| ensures !IsMatch(u, p, r, i, j) {
      if y + |c.keep| <= i { NoMatchInToken(u, p, c.pat, r, y + |c.keep|, i, j); }
    }
  }
}
