/** `re.sub` for one pattern: leftmost, non-overlapping matches, each replaced by the
    pattern's token; and why a replacement can destroy matches but never create one. */
module Substitution {
  import opened Basics
  import opened Regex

  // ---- which patterns and tokens are harmless

  predicate TokenLetter(c: char) {
    AsciiLower(c) || AsciiUpper(c) || c == '_'
  }

  predicate Bracket(c: char) {
    c == '[' || c == ']' || c == ':'
  }

  /** The class admits none of the characters that delimit a token. */
  predicate NoBracket(cls: Class) {
    cls.Lit? || cls.LitIgnoreCase? ==> !Bracket(cls.c)
  }

  /** The class admits none of the letters tokens are made of. */
  predicate NoTokenLetter(cls: Class) {
    cls.Digit? || (cls.Lit? && !TokenLetter(cls.c))
  }

  function MinLength(b: Branch): nat {
    if b == [] then 0 else b[0].min + MinLength(b[1..])
  }

  /** Words of the branch are not empty, hold no delimiter, and do not fit into the inside
      of a token: they are too long or need a character that tokens lack. */
  ghost predicate SaneBranch(b: Branch) {
    && MinLength(b) > 0
    && (forall a :: a in b ==> NoBracket(a.cls))
    && (MinLength(b) >= 20 || exists a :: a in b && a.min > 0 && NoTokenLetter(a.cls))
  }

  ghost predicate Sane(p: Pattern) {
    && (forall b :: b in p.branches ==> SaneBranch(b))
    && 0 < |p.kind| < 20
    && forall i :: 0 <= i < |p.kind| ==> TokenLetter(p.kind[i])
  }

  lemma ClassFacts(u: Unicode, cls: Class, c: char)
    requires InClass(u, cls, c)
    ensures NoBracket(cls) ==> !Bracket(c)
    ensures NoTokenLetter(cls) ==> !TokenLetter(c)
  {
  }

  lemma {:induction false} WordFacts(u: Unicode, b: Branch, w: string)
    requires InLanguage(u, b, w) && forall a :: a in b ==> NoBracket(a.cls)
    ensures |w| >= MinLength(b)
    ensures forall i :: 0 <= i < |w| ==> !Bracket(w[i])
    ensures (exists a :: a in b && a.min > 0 && NoTokenLetter(a.cls)) ==>
            exists i :: 0 <= i < |w| && !TokenLetter(w[i])
    decreases |b|
  {
    if b != [] {
      var k: nat :| Repeats(u, b[0], w, k) && InLanguage(u, b[1..], w[k..]);
      WordFacts(u, b[1..], w[k..]);
      forall i | 0 <= i < |w| ensures !Bracket(w[i]) {
        if i < k { ClassFacts(u, b[0].cls, w[i]); } else { assert w[i] == w[k..][i - k]; }
      }
      if a :| a in b && a.min > 0 && NoTokenLetter(a.cls) {
        if a == b[0] {
          ClassFacts(u, a.cls, w[0]);
        } else {
          assert a in b[1..];
          var i :| 0 <= i < |w[k..]| && !TokenLetter(w[k..][i]);
          assert w[k + i] == w[k..][i];
        }
      }
    }
  }

  lemma MatchFacts(u: Unicode, p: Pattern, s: string, i: int, j: int)
    requires Sane(p) && IsMatch(u, p, s, i, j)
    ensures i < j && forall x :: i <= x < j ==> !Bracket(s[x])
    ensures j - i >= 20 || exists x :: i <= x < j && !TokenLetter(s[x])
  {
    var w := s[i..j];
    var b :| b in p.branches && InLanguage(u, b, w);
    WordFacts(u, b, w);
    forall x | i <= x < j ensures !Bracket(s[x]) { assert s[x] == w[x - i]; }
    if MinLength(b) < 20 {
      var y :| 0 <= y < |w| && !TokenLetter(w[y]);
      assert s[i + y] == w[y];
    }
  }

  /** A stretch that begins inside a token and holds no delimiter is short and made of
      token letters only. */
  lemma TokenStretch(p: Pattern, s: string, a: nat, i: nat, j: nat)
    requires Sane(p) && a + |p.Token()| <= |s| && s[a..a + |p.Token()|] == p.Token()
    requires a <= i < a + |p.Token()| && i < j <= |s| && forall x :: i <= x < j ==> !Bracket(s[x])
    ensures j - i < 20 && forall x :: i <= x < j ==> TokenLetter(s[x])
  {
    var t := p.Token();
    forall x | 0 <= x < |t| ensures s[a + x] == t[x] { assert s[a + x] == s[a..a + |t|][x]; }
    assert t[0] == '[' && t[9] == ':' && t[|t| - 1] == ']';
    assert Bracket(s[a + 0]) && Bracket(s[a + 9]) && Bracket(s[a + (|t| - 1)]);
    assert j < a + |t|;
    forall x | i <= x < j ensures TokenLetter(s[x]) {
      assert s[x] == s[a + (x - a)] == t[x - a];
      if x - a > 9 { assert t[x - a] == p.kind[x - a - 10]; }
    }
  }

  /** No match of a sane pattern begins inside a token. */
  lemma NoMatchInToken(u: Unicode, q: Pattern, p: Pattern, s: string, a: nat, i: int, j: int)
    requires Sane(p) && Sane(q)
    requires a + |p.Token()| <= |s| && s[a..a + |p.Token()|] == p.Token()
    requires a <= i < a + |p.Token()|
    ensures !IsMatch(u, q, s, i, j)
  {
    if IsMatch(u, q, s, i, j) {
      MatchFacts(u, q, s, i, j);
      TokenStretch(p, s, a, i, j);
    }
  }

  // ---- the substitution

  /** The leftmost match starting at `pos` or later, as start and end. */
  function FindFrom(u: Unicode, p: Pattern, s: string, pos: nat): Option<(nat, nat)>
    requires pos <= |s|
    decreases |s| - pos
  {
    var r := MatchAt(u, p, s, pos);
    if r.Some? then Some((pos, r.value))
    else if pos == |s| then None
    else FindFrom(u, p, s, pos + 1)
  }

  lemma {:induction false} FindFromIsLeftmost(u: Unicode, p: Pattern, s: string, pos: nat)
    requires pos <= |s|
    ensures var r := FindFrom(u, p, s, pos);
            && (r.Some? ==> pos <= r.value.0 && IsMatch(u, p, s, r.value.0, r.value.1))
            && forall i, j :: pos <= i && IsMatch(u, p, s, i, j) ==> r.Some? && r.value.0 <= i
    decreases |s| - pos
  {
    MatcherDecides(u, p, s, pos);
    if MatchAt(u, p, s, pos).None? && pos < |s| {
      FindFromIsLeftmost(u, p, s, pos + 1);
    }
  }

  /** What `p.sub` makes of the text from `pos` on. */
  function SubFrom(u: Unicode, p: Pattern, s: string, pos: nat): string
    requires Sane(p) && pos <= |s|
    decreases |s| - pos
  {
    var r := FindFrom(u, p, s, pos);
    if r.None? then s[pos..]
    else
      FindFromIsLeftmost(u, p, s, pos);
      MatchFacts(u, p, s, r.value.0, r.value.1);
      s[pos..r.value.0] + p.Token() + SubFrom(u, p, s, r.value.1)
  }

  function Sub(u: Unicode, p: Pattern, s: string): string
    requires Sane(p)
  {
    SubFrom(u, p, s, 0)
  }

  // ---- texts cut into kept parts and replaced parts

  datatype Cuts =
    | End(last: string)
    | Cut(keep: string, gone: string, pat: Pattern, rest: Cuts)

  /** The text before the replacements, and after them. */
  function Before(c: Cuts): string {
    match c case End(s) => s case Cut(keep, gone, _, rest) => keep + gone + Before(rest)
  }

  function After(c: Cuts): string {
    match c case End(s) => s case Cut(keep, _, pat, rest) => keep + pat.Token() + After(rest)
  }

  /** Every replaced part is a word of its pattern. */
  ghost predicate Justified(u: Unicode, c: Cuts) {
    c.Cut? ==> (exists b :: b in c.pat.branches && InLanguage(u, b, c.gone)) && Justified(u, c.rest)
  }

  function Kinds(c: Cuts): set<string> {
    if c.End? then {} else {c.pat.kind} + Kinds(c.rest)
  }

  predicate OnlyBy(c: Cuts, ps: set<Pattern>) {
    c.Cut? ==> c.pat in ps && OnlyBy(c.rest, ps)
  }

  lemma {:induction false} OnlyByMore(c: Cuts, ps: set<Pattern>, qs: set<Pattern>)
    requires OnlyBy(c, ps) && ps <= qs
    ensures OnlyBy(c, qs)
  {
    if c.Cut? { OnlyByMore(c.rest, ps, qs); }
  }

  // ---- one substitution creates no match

  /** The cuts that substituting `p` in `s` from `pos` on makes. */
  ghost function Trace(u: Unicode, p: Pattern, s: string, pos: nat): Cuts
    requires Sane(p) && pos <= |s|
    decreases |s| - pos
  {
    var r := FindFrom(u, p, s, pos);
    if r.None? then End(s[pos..])
    else
      FindFromIsLeftmost(u, p, s, pos);
      MatchFacts(u, p, s, r.value.0, r.value.1);
      Cut(s[pos..r.value.0], s[r.value.0..r.value.1], p, Trace(u, p, s, r.value.1))
  }

  lemma ThreeParts(s: string, a: nat, b: nat, c: nat)
    requires a <= b <= c <= |s|
    ensures s[a..] == s[a..b] + s[b..c] + s[c..]
  {
  }

  lemma {:induction false} TraceIsSub(u: Unicode, p: Pattern, s: string, pos: nat)
    requires Sane(p) && pos <= |s|
    ensures var c := Trace(u, p, s, pos);
            && Before(c) == s[pos..] && After(c) == SubFrom(u, p, s, pos)
            && Justified(u, c) && OnlyBy(c, {p})
            && Kinds(c) == if FindFrom(u, p, s, pos).Some? then {p.kind} else {}
    decreases |s| - pos
  {
    var r := FindFrom(u, p, s, pos);
    if r.Some? {
      FindFromIsLeftmost(u, p, s, pos);
      MatchFacts(u, p, s, r.value.0, r.value.1);
      TraceIsSub(u, p, s, r.value.1);
      ThreeParts(s, pos, r.value.0, r.value.1);
    }
  }

  ghost predicate ClearBetween(u: Unicode, q: Pattern, s: string, a: int, b: int) {
    forall i, j :: a <= i && j <= b ==> !IsMatch(u, q, s, i, j)
  }

  /** `q` matches in no kept part, and every replaced part of `c`, which is the tail of `s`
      from `at` on, starts and ends at a word boundary. */
  ghost predicate Clear(u: Unicode, q: Pattern, s: string, at: nat, c: Cuts)
    decreases c
  {
    match c
    case End(_) => ClearBetween(u, q, s, at, |s|)
    case Cut(keep, gone, _, rest) =>
      var a := at + |keep|;
      && ClearBetween(u, q, s, at, a)
      && Boundary(u, s, a) && Boundary(u, s, a + |gone|)
      && Clear(u, q, s, a + |gone|, rest)
  }

  ghost predicate SaneTokens(c: Cuts) {
    c.Cut? ==> Sane(c.pat) && SaneTokens(c.rest)
  }

  lemma SliceOfSlice(s: string, a: nat, b: nat, c: nat, d: nat)
    requires a + d <= b <= |s| && c <= d
    ensures s[a..b][c..d] == s[a + c..a + d]
  {
    forall k | 0 <= k < d - c ensures s[a..b][c..d][k] == s[a + c..a + d][k] {
      assert s[a..b][c..d][k] == s[a..b][c + k];
    }
  }

  /** A boundary inside a common part of two texts, or at an end of it that is a boundary
      or an end of the text in the first one, is a boundary in the first one. */
  lemma BoundaryMoves(u: Unicode, s: string, x: nat, r: string, y: nat, len: nat, k: nat)
    requires x + len <= |s| && y + len <= |r| && s[x..x + len] == r[y..y + len]
    requires k <= len && len > 0 && Boundary(u, r, y + k)
    requires (x == 0 && y == 0) || Boundary(u, s, x)
    requires (x + len == |s| && y + len == |r|) || Boundary(u, s, x + len)
    ensures Boundary(u, s, x + k)
  {
    var a, b := s[x..x + len], r[y..y + len];
    if k > 0 { assert s[x + (k - 1)] == a[k - 1] == b[k - 1] == r[y + (k - 1)]; }
    if k < len { assert s[x + k] == a[k] == b[k] == r[y + k]; }
  }

  lemma MatchTransfers(u: Unicode, q: Pattern, s: string, i: int, j: int, r: string, i': int, j': int)
    requires 0 <= i <= j <= |s| && IsMatch(u, q, r, i', j') && s[i..j] == r[i'..j']
    requires Boundary(u, s, i) && Boundary(u, s, j)
    ensures IsMatch(u, q, s, i, j)
  {
  }

  /** A match inside a kept part moves over to the original text.  The part is `len` long
      and begins at `x` before the replacements and at `y` after them; each of its ends is
      the text's own end or a word boundary of the original. */
  lemma MatchMoves(u: Unicode, q: Pattern, s: string, x: nat, r: string, y: nat, len: nat, c: nat, d: nat)
    requires x + len <= |s| && y + len <= |r| && s[x..x + len] == r[y..y + len]
    requires c < d <= len && IsMatch(u, q, r, y + c, y + d)
    requires (x == 0 && y == 0) || Boundary(u, s, x)
    requires (x + len == |s| && y + len == |r|) || Boundary(u, s, x + len)
    ensures IsMatch(u, q, s, x + c, x + d)
  {
    BoundaryMoves(u, s, x, r, y, len, c);
    BoundaryMoves(u, s, x, r, y, len, d);
    SlicesAgree(s, x, r, y, len, c, d);
    MatchTransfers(u, q, s, x + c, x + d, r, y + c, y + d);
  }

  lemma SlicesAgree(s: string, x: nat, r: string, y: nat, len: nat, c: nat, d: nat)
    requires x + len <= |s| && y + len <= |r| && s[x..x + len] == r[y..y + len] && c <= d <= len
    ensures s[x + c..x + d] == r[y + c..y + d]
  {
    SliceOfSlice(s, x, x + len, c, d);
    SliceOfSlice(r, y, y + len, c, d);
  }

  /** Nothing matches from inside a kept part that had no match: what follows the part is
      a token or nothing. */
  lemma KeptStaysClear(u: Unicode, q: Pattern, s: string, x: nat, r: string, y: nat, len: nat, i: int, j: int)
    requires Sane(q) && y <= i < y + len
    requires ClearBetween(u, q, s, x, x + len)
    requires x + len <= |s| && y + len <= |r| && s[x..x + len] == r[y..y + len]
    requires (x == 0 && y == 0) || Boundary(u, s, x)
    requires (x + len == |s| && y + len == |r|) || (Boundary(u, s, x + len) && y + len < |r| && Bracket(r[y + len]))
    ensures !IsMatch(u, q, r, i, j)
  {
    if IsMatch(u, q, r, i, j) {
      MatchFacts(u, q, r, i, j);
      MatchMoves(u, q, s, x, r, y, len, i - y, j - y);
    }
  }

  /** How the cuts lie in the two texts: the kept parts agree and the tokens are there. */
  ghost predicate LaidOut(s: string, x: nat, r: string, y: nat, c: Cuts)
    decreases c
  {
    match c
    case End(last) => x + |last| == |s| && y + |last| == |r| && s[x..x + |last|] == r[y..y + |last|]
    case Cut(keep, gone, pat, rest) =>
      var a, b, t := x + |keep|, y + |keep|, pat.Token();
      && a + |gone| <= |s| && b + |t| <= |r| && s[x..a] == r[y..b] && r[b..b + |t|] == t
      && LaidOut(s, a + |gone|, r, b + |t|, rest)
  }

  lemma {:induction false} TextsAreLaidOut(s: string, x: nat, r: string, y: nat, c: Cuts)
    requires x <= |s| && y <= |r| && s[x..] == Before(c) && r[y..] == After(c)
    ensures LaidOut(s, x, r, y, c)
    decreases c
  {
    match c
    case End(last) =>
      assert s[x..x + |last|] == s[x..] && r[y..y + |last|] == r[y..];
    case Cut(keep, gone, pat, rest) =>
      CutAt(s, x, keep, gone, Before(rest));
      CutAt(r, y, keep, pat.Token(), After(rest));
      TextsAreLaidOut(s, x + |keep| + |gone|, r, y + |keep| + |pat.Token()|, rest);
  }

  /** Nothing matches from inside the first kept part or the token after it. */
  lemma FirstCutStaysClear(u: Unicode, q: Pattern, s: string, x: nat, r: string, y: nat, c: Cuts, i: int, j: int)
    requires Sane(q) && c.Cut? && Sane(c.pat) && LaidOut(s, x, r, y, c)
    requires ClearBetween(u, q, s, x, x + |c.keep|) && Boundary(u, s, x + |c.keep|)
    requires (x == 0 && y == 0) || Boundary(u, s, x)
    requires y <= i < y + |c.keep| + |c.pat.Token()|
    ensures !IsMatch(u, q, r, i, j)
  {
    TokenStarts(c.pat, r, y + |c.keep|);
    if i < y + |c.keep| {
      KeptStaysClear(u, q, s, x, r, y, |c.keep|, i, j);
    } else {
      NoMatchInToken(u, q, c.pat, r, y + |c.keep|, i, j);
    }
  }

  /** No match is created: a pattern without a match in the kept parts has none after the
      replacements.  The text before is `s`, the text after is `r`; `x` and `y` are where
      the cuts begin in each. */
  lemma {:induction false} NothingCreated(u: Unicode, q: Pattern, s: string, x: nat, r: string, y: nat, c: Cuts,
                                          i: int, j: int)
    requires Sane(q) && SaneTokens(c) && Clear(u, q, s, x, c) && LaidOut(s, x, r, y, c)
    requires (x == 0 && y == 0) || Boundary(u, s, x)
    requires y <= i < |r|
    ensures !IsMatch(u, q, r, i, j)
    decreases c
  {
    if c.End? {
      KeptStaysClear(u, q, s, x, r, y, |c.last|, i, j);
    } else if i < y + |c.keep| + |c.pat.Token()| {
      FirstCutStaysClear(u, q, s, x, r, y, c, i, j);
    } else {
      NothingCreated(u, q, s, x + |c.keep| + |c.gone|, r, y + |c.keep| + |c.pat.Token()|, c.rest, i, j);
    }
  }

  lemma TokenStarts(p: Pattern, r: string, b: nat)
    requires b + |p.Token()| <= |r| && r[b..b + |p.Token()|] == p.Token()
    ensures b < |r| && r[b] == '['
  {
    assert r[b] == r[b..b + |p.Token()|][0] == p.Token()[0];
  }

  lemma CutAt(s: string, x: nat, a: string, b: string, c: string)
    requires x <= |s| && s[x..] == a + b + c
    ensures x + |a| + |b| <= |s|
    ensures s[x..x + |a|] == a && s[x + |a|..x + |a| + |b|] == b && s[x + |a| + |b|..] == c
  {
    assert |s| - x == |a| + |b| + |c|;
    assert s[x..x + |a|] == s[x..][..|a|];
    assert s[x + |a|..x + |a| + |b|] == s[x..][|a|..|a| + |b|];
    assert s[x + |a| + |b|..] == s[x..][|a| + |b|..];
  }

  lemma {:induction false} TraceIsClear(u: Unicode, p: Pattern, q: Pattern, s: string, pos: nat)
    requires Sane(p) && pos <= |s| && (q == p || NoMatch(u, q, s))
    ensures Clear(u, q, s, pos, Trace(u, p, s, pos)) && SaneTokens(Trace(u, p, s, pos))
    decreases |s| - pos
  {
    var r := FindFrom(u, p, s, pos);
    FindFromIsLeftmost(u, p, s, pos);
    if r.Some? {
      MatchFacts(u, p, s, r.value.0, r.value.1);
      TraceIsClear(u, p, q, s, r.value.1);
      if q == p {
        forall i, j | pos <= i && j <= r.value.0 ensures !IsMatch(u, p, s, i, j) {
          if IsMatch(u, p, s, i, j) { MatchFacts(u, p, s, i, j); }
        }
      }
    }
  }

  /** Substituting `p` leaves no match of `p`, and brings in no match of another pattern
      that had none. */
  lemma SubLeavesNoMatch(u: Unicode, p: Pattern, q: Pattern, s: string)
    requires Sane(p) && Sane(q) && (q == p || NoMatch(u, q, s))
    ensures NoMatch(u, q, Sub(u, p, s))
  {
    TraceIsSub(u, p, s, 0);
    TraceIsClear(u, p, q, s, 0);
    var r := Sub(u, p, s);
    assert s[0..] == s && r[0..] == r;
    TextsAreLaidOut(s, 0, r, 0, Trace(u, p, s, 0));
    forall i, j ensures !IsMatch(u, q, r, i, j) {
      if 0 <= i < |r| {
        NothingCreated(u, q, s, 0, r, 0, Trace(u, p, s, 0), i, j);
      } else if IsMatch(u, q, r, i, j) {
        MatchFacts(u, q, r, i, j);
      }
    }
  }

  /** Substitution changes the text exactly when there is a match. */
  lemma SubChangesIffMatch(u: Unicode, p: Pattern, s: string)
    requires Sane(p)
    ensures Sub(u, p, s) == s <==> NoMatch(u, p, s)
    ensures FindFrom(u, p, s, 0).None? <==> NoMatch(u, p, s)
  {
    FindFromIsLeftmost(u, p, s, 0);
    var r := FindFrom(u, p, s, 0);
    if r.Some? {
      var i := r.value.0;
      MatchFacts(u, p, s, i, r.value.1);
      assert Sub(u, p, s)[i] == '[';
    } else {
      forall i, j ensures !IsMatch(u, p, s, i, j) {}
    }
  }
}
