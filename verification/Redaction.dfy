/** `redact_pii` (workspace-template/builtin_tools/compliance.py). */
module Redaction {
  import opened Basics
  import opened Regex
  import opened Substitution
  import opened Refinement
  import opened PiiTable
  import opened Shapes

  // ---- the chain of substitutions

  /** The chain over any list of patterns, from a text and the types found so far. */
  function Chain(u: Unicode, ps: seq<Pattern>, s: string, found: seq<string>): (string, seq<string>)
    requires AllSane(ps)
  {
    if ps == [] then (s, found)
    else
      var r := Sub(u, ps[0], s);
      if r == s then Chain(u, ps[1..], s, found)
      else Chain(u, ps[1..], r, if ps[0].kind in found then found else found + [ps[0].kind])
  }

  lemma {:induction false} ChainLeavesNoMatch(u: Unicode, ps: seq<Pattern>, s: string, found: seq<string>, q: Pattern)
    requires AllSane(ps) && Sane(q) && (q in ps || NoMatch(u, q, s))
    ensures NoMatch(u, q, Chain(u, ps, s, found).0)
    decreases |ps|
  {
    if ps != [] {
      var r := Sub(u, ps[0], s);
      if q == ps[0] || NoMatch(u, q, s) {
        SubLeavesNoMatch(u, ps[0], q, s);
      } else {
        assert q in ps[1..];
      }
      ChainLeavesNoMatch(u, ps[1..], r, if ps[0].kind in found then found else found + [ps[0].kind], q);
      ChainLeavesNoMatch(u, ps[1..], r, found, q);
    }
  }

  lemma {:induction false} CleanChain(u: Unicode, ps: seq<Pattern>, s: string, found: seq<string>)
    requires AllSane(ps) && forall p :: p in ps ==> NoMatch(u, p, s)
    ensures Chain(u, ps, s, found) == (s, found)
    decreases |ps|
  {
    if ps != [] {
      assert ps[0] in ps;
      SubChangesIffMatch(u, ps[0], s);
      CleanChain(u, ps[1..], s, found);
    }
  }

  ghost function Elements<T>(s: seq<T>): set<T> {
    set x | x in s
  }

  lemma FoundOneMore(found: seq<string>, kind: string)
    requires Distinct(found)
    ensures var found' := if kind in found then found else found + [kind];
            Distinct(found') && Elements(found') == Elements(found) + {kind}
  {
  }

  /** Over the whole chain the text is cut into kept parts and replaced parts; the types
      found are the kinds of the tokens, each once. */
  lemma {:induction false} ChainCuts(u: Unicode, ps: seq<Pattern>, all: set<Pattern>, s: string, found: seq<string>,
                                     c: Cuts)
    returns (c': Cuts)
    requires AllSane(ps) && Elements(ps) <= all && Sound(u, None, c, all)
    requires After(c) == s && Distinct(found) && Elements(found) == Kinds(c)
    ensures Before(c') == Before(c) && After(c') == Chain(u, ps, s, found).0 && Sound(u, None, c', all)
    ensures Distinct(Chain(u, ps, s, found).1) && Elements(Chain(u, ps, s, found).1) == Kinds(c')
    decreases |ps|
  {
    if ps == [] {
      c' := c;
    } else {
      assert ps[0] in ps && ps[0] in all && Elements(ps[1..]) <= Elements(ps);
      var c1, found' := OneMorePattern(u, ps[0], all, s, found, c);
      c' := ChainCuts(u, ps[1..], all, Sub(u, ps[0], s), found', c1);
    }
  }

  lemma OneMorePattern(u: Unicode, p: Pattern, all: set<Pattern>, s: string, found: seq<string>, c: Cuts)
    returns (c1: Cuts, found': seq<string>)
    requires Sane(p) && p in all && Sound(u, None, c, all)
    requires After(c) == s && Distinct(found) && Elements(found) == Kinds(c)
    ensures Before(c1) == Before(c) && After(c1) == Sub(u, p, s) && Sound(u, None, c1, all)
    ensures found' == if Sub(u, p, s) == s || p.kind in found then found else found + [p.kind]
    ensures Distinct(found') && Elements(found') == Kinds(c1)
  {
    assert s[0..] == s;
    TextShows(s, 0, c);
    c1 := SubRefinesCuts(u, p, s, 0, c, None, all);
    SubChangesIffMatch(u, p, s);
    found' := if Sub(u, p, s) == s || p.kind in found then found else found + [p.kind];
    FoundOneMore(found, p.kind);
  }

  // ---- redact_pii

  function Redacted(u: Unicode, text: string): (string, seq<string>) {
    TableIsSane();
    Chain(u, Table(), text, [])
  }

  /** The loop over the table. */
  method RedactPii(u: Unicode, text: string) returns (result: string, found: seq<string>)
    ensures (result, found) == Redacted(u, text)
    ensures NoShape(u, result) && IsListed(found)
    ensures found == [] <==> result == text
  {
    TableIsSane();
    found := [];
    result := text;
    var table := Table();
    for i := 0 to |table|
      invariant AllSane(table[i..])
      invariant Chain(u, table[i..], result, found) == Redacted(u, text)
    {
      assert table[i..][0] == table[i] && table[i..][1..] == table[i + 1..];
      var replacement := table[i].Token();
      var newResult := Sub(u, table[i], result);
      if newResult != result {
        var piiType := replacement[|Opening()|..|replacement| - 1];
        assert piiType == table[i].kind;
        if piiType !in found {
          found := found + [piiType];
        }
        result := newResult;
      }
    }
    NoShapeRemains(u, text);
    TypesAreListed(u, text);
    UntouchedIffClean(u, text);
  }

  /** The output has no stretch between word boundaries that looks like a card number, a
      social security number, a key, a token or an e-mail address. */
  lemma NoShapeRemains(u: Unicode, text: string)
    ensures NoShape(u, Redacted(u, text).0)
  {
    TableIsSane();
    forall p | p in Table() ensures NoMatch(u, p, Redacted(u, text).0) {
      ChainLeavesNoMatch(u, Table(), text, [], p);
    }
    NoShapeIff(u, Redacted(u, text).0);
  }

  /** A second run returns the text unchanged and finds no type. */
  lemma RedactionIsIdempotent(u: Unicode, text: string)
    ensures var r := Redacted(u, text).0; Redacted(u, r) == (r, [])
  {
    TableIsSane();
    NoShapeRemains(u, text);
    NoShapeIff(u, Redacted(u, text).0);
    CleanChain(u, Table(), Redacted(u, text).0, []);
  }

  /** Every replaced part stands between word boundaries of the text and has the shape of
      its kind; the cuts begin at `x`. */
  ghost predicate Shaped(u: Unicode, s: string, x: nat, c: Cuts)
    decreases c
  {
    match c
    case End(_) => true
    case Cut(keep, gone, pat, rest) =>
      && ShapeAt(u, s, pat.kind, x + |keep|, x + |keep| + |gone|)
      && Shaped(u, s, x + |keep| + |gone|, rest)
  }

  /** The text with each replaced part shown by its kind. */
  function Labelled(c: Cuts): string {
    match c case End(s) => s case Cut(keep, _, pat, rest) => keep + "[REDACTED:" + pat.kind + "]" + Labelled(rest)
  }

  lemma MatchIsShape(u: Unicode, s: string, p: Pattern, i: int, j: int)
    requires p in Table() && IsMatch(u, p, s, i, j)
    ensures ShapeAt(u, s, p.kind, i, j)
  {
    MatchesAre(u, s, p.kind, i, j);
  }

  lemma OneMoreShaped(u: Unicode, s: string, x: nat, keep: string, gone: string, pat: Pattern, rest: Cuts)
    requires ShapeAt(u, s, pat.kind, x + |keep|, x + |keep| + |gone|) && Shaped(u, s, x + |keep| + |gone|, rest)
    ensures Shaped(u, s, x, Cut(keep, gone, pat, rest))
  {
  }

  lemma {:induction false} MatchedIsShaped(u: Unicode, s: string, x: nat, c: Cuts)
    requires Matched(u, s, x, c) && OnlyBy(c, Elements(Table()))
    ensures Shaped(u, s, x, c)
    decreases c
  {
    match c
    case End(_) =>
    case Cut(keep, gone, pat, rest) =>
      MatchedIsShaped(u, s, x + |keep| + |gone|, rest);
      MatchIsShape(u, s, c.pat, x + |keep|, x + |keep| + |gone|);
      OneMoreShaped(u, s, x, keep, gone, pat, rest);
  }

  lemma {:induction false} LabelledIs(c: Cuts)
    ensures Labelled(c) == After(c)
  {
    if c.Cut? {
      LabelledIs(c.rest);
      assert c.keep + "[REDACTED:" + c.pat.kind + "]" + After(c.rest) ==
             c.keep + ("[REDACTED:" + c.pat.kind + "]") + After(c.rest);
    }
  }

  /** The output is the text with some parts, each of a shape and between word boundaries of
      the text, replaced by the label of its kind and all else verbatim and in order; the
      types returned are exactly the kinds of those labels, each once. */
  lemma OnlyShapesAreReplaced(u: Unicode, text: string) returns (c: Cuts)
    ensures Before(c) == text && Labelled(c) == Redacted(u, text).0 && Shaped(u, text, 0, c)
    ensures Distinct(Redacted(u, text).1) && Elements(Redacted(u, text).1) == Kinds(c)
  {
    TableIsSane();
    assert "" + text == text;
    c := ChainCuts(u, Table(), Elements(Table()), text, [], End(text));
    EdgesMakeMatches(u, text, 0, "", c);
    MatchedIsShaped(u, text, 0, c);
    LabelledIs(c);
  }

  /** The text comes back unchanged, with no types, exactly when no stretch of it between
      word boundaries has a shape. */
  lemma UntouchedIffClean(u: Unicode, text: string)
    ensures Redacted(u, text).1 == [] <==> Redacted(u, text).0 == text
    ensures Redacted(u, text).0 == text <==> NoShape(u, text)
  {
    TableIsSane();
    NoShapeRemains(u, text);
    NoShapeIff(u, text);
    if NoShape(u, text) { CleanChain(u, Table(), text, []); }
    var c := OnlyShapesAreReplaced(u, text);
    if c.Cut? {
      assert c.pat.kind in Kinds(c);
    }
  }

  // ---- the order of the types

  const KINDS := ["credit_card", "ssn", "api_key", "aws_key", "github_token", "email"]

  /** Kinds of the list, each at most once, in the order of the list. */
  ghost predicate IsListed(found: seq<string>) {
    exists at :: IsListedAt(found, at)
  }

  ghost predicate IsListedAt(found: seq<string>, at: seq<nat>) {
    && Increasing(at) && |at| == |found|
    && forall k :: 0 <= k < |at| ==> at[k] < |KINDS| && found[k] == KINDS[at[k]]
  }

  /** The patterns' kinds stand in the list, no one before the one in front of it. */
  ghost predicate InOrder(ps: seq<Pattern>, ranks: seq<nat>, least: nat) {
    && |ranks| == |ps|
    && (forall k :: 0 <= k < |ps| ==> least <= ranks[k] < |KINDS| && ps[k].kind == KINDS[ranks[k]])
    && forall i, j :: 0 <= i < j < |ps| ==> ranks[i] <= ranks[j]
  }

  lemma {:induction false} ChainLists(u: Unicode, ps: seq<Pattern>, ranks: seq<nat>, s: string, found: seq<string>,
                                      at: seq<nat>)
    requires AllSane(ps) && IsListedAt(found, at)
    requires InOrder(ps, ranks, if at == [] then 0 else at[|at| - 1])
    ensures IsListed(Chain(u, ps, s, found).1)
    decreases |ps|
  {
    if ps != [] {
      var kind, r := ps[0].kind, Sub(u, ps[0], s);
      if r == s || kind in found {
        ChainLists(u, ps[1..], ranks[1..], r, found, at);
      } else {
        if at != [] { assert found[|at| - 1] != kind; }
        ChainLists(u, ps[1..], ranks[1..], r, found + [kind], at + [ranks[0]]);
      }
    }
  }

  /** The types come in the order of the list. */
  lemma TypesAreListed(u: Unicode, text: string)
    ensures IsListed(Redacted(u, text).1)
  {
    TableIsSane();
    var t := Table();
    var ranks: seq<nat> := [0, 1, 2, 2, 3, 4, 5];
    assert IsListedAt([], []);
    ChainLists(u, Table(), ranks, text, [], []);
  }

  // ---- a text that is a social security number

  predicate PlainSsn(w: string) {
    |w| == 11 && forall x :: 0 <= x < 11 ==> if x == 3 || x == 6 then w[x] == '-' else '0' <= w[x] <= '9'
  }

  lemma OnlyTheWhole(u: Unicode, w: string, kind: string, i: int, j: int)
    requires PlainSsn(w) && ShapeAt(u, w, kind, i, j)
    ensures i == 0 && j == 11 && kind == "ssn"
  {
    var part := w[i..j];
    forall x | 0 <= x < |part| ensures part[x] != '@' { assert part[x] == w[i + x]; }
  }

  lemma FirstGone(u: Unicode, w: string, x: nat, c: Cuts)
    requires PlainSsn(w) && c.Cut? && Shaped(u, w, x, c)
    ensures x == 0 && c.keep == "" && |c.gone| == 11 && c.pat.kind == "ssn" && Shaped(u, w, 11, c.rest)
  {
    OnlyTheWhole(u, w, c.pat.kind, x + |c.keep|, x + |c.keep| + |c.gone|);
  }

  lemma WholeIsCut(u: Unicode, w: string, c: Cuts)
    requires PlainSsn(w) && Before(c) == w && Shaped(u, w, 0, c) && c.Cut?
    ensures Labelled(c) == "[REDACTED:ssn]" && Kinds(c) == {"ssn"}
  {
    FirstGone(u, w, 0, c);
    assert |Before(c.rest)| == 0;
    if c.rest.Cut? { FirstGone(u, w, 11, c.rest); }
    assert c.rest == End("");
    assert "" + "[REDACTED:" + "ssn" + "]" + "" == "[REDACTED:ssn]";
  }

  lemma OneElement(types: seq<string>, x: string)
    requires Distinct(types) && Elements(types) == {x}
    ensures types == [x]
  {
    assert x in Elements(types);
    forall i | 0 <= i < |types| ensures types[i] == x { assert types[i] in Elements(types); }
    assert types[|types| - 1] == types[0];
  }

  lemma SsnStands(u: Unicode, w: string)
    requires PlainSsn(w)
    ensures !NoShape(u, w)
  {
    assert w[0..11] == w && SsnShape(u, w);
    assert ShapeAt(u, w, "ssn", 0, 11);
  }

  /** It is replaced as a whole and reported. */
  lemma SsnIsRedacted(u: Unicode, w: string)
    requires PlainSsn(w)
    ensures Redacted(u, w) == ("[REDACTED:ssn]", ["ssn"])
  {
    SsnStands(u, w);
    UntouchedIffClean(u, w);
    var c := OnlyShapesAreReplaced(u, w);
    WholeIsCut(u, w, c);
    OneElement(Redacted(u, w).1, "ssn");
  }
}
