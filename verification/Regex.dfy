/** The regular expressions of the redaction table: sequences of repeated character
    classes between two word boundaries.  `MatchAt` is Python's backtracking matcher for
    them; `IsMatch` is what they mean. */
module Regex {
  import opened Basics

  /** Python's tables for characters beyond ASCII, whatever they are: `\w`, `\d`, `\s`, and
      the ASCII letter (if any) a character equals when case is ignored. */
  datatype Unicode = Unicode(word: char -> bool, digit: char -> bool, space: char -> bool, fold: char -> char)

  predicate Ascii(c: char) { c < 128 as char }
  predicate AsciiLower(c: char) { 'a' <= c <= 'z' }
  predicate AsciiUpper(c: char) { 'A' <= c <= 'Z' }
  predicate AsciiDigit(c: char) { '0' <= c <= '9' }
  predicate AsciiAlnum(c: char) { AsciiLower(c) || AsciiUpper(c) || AsciiDigit(c) }

  predicate IsWord(u: Unicode, c: char) {
    if Ascii(c) then AsciiAlnum(c) || c == '_' else u.word(c)
  }

  predicate IsDigit(u: Unicode, c: char) {
    if Ascii(c) then AsciiDigit(c) else u.digit(c)
  }

  predicate IsSpace(u: Unicode, c: char) {
    if Ascii(c) then 9 as char <= c <= 13 as char || 28 as char <= c <= 32 as char else u.space(c)
  }

  function Fold(u: Unicode, c: char): char {
    if AsciiUpper(c) then c - 'A' + 'a' else if Ascii(c) then c else u.fold(c)
  }

  /** The character classes of the table; `Lit` and `Key` also come in a form that ignores
      case, whose letter is given in lower case. */
  datatype Class =
    | Lit(c: char)
    | LitIgnoreCase(c: char)
    | Digit
    | SpaceOrDash
    | DashOrUnderscore
    | Key
    | KeyIgnoreCase
    | UpperOrDigit
    | Alnum
    | Letter
    | MailLocal
    | MailDomain

  predicate InClass(u: Unicode, cls: Class, c: char) {
    match cls
    case Lit(l) => c == l
    case LitIgnoreCase(l) => Fold(u, c) == l
    case Digit => IsDigit(u, c)
    case SpaceOrDash => IsSpace(u, c) || c == '-'
    case DashOrUnderscore => c == '-' || c == '_'
    case Key => AsciiAlnum(c) || c == '_' || c == '-'
    case KeyIgnoreCase => AsciiAlnum(c) || c == '_' || c == '-' || (!Ascii(c) && AsciiLower(Fold(u, c)))
    case UpperOrDigit => AsciiUpper(c) || AsciiDigit(c)
    case Alnum => AsciiAlnum(c)
    case Letter => AsciiLower(c) || AsciiUpper(c)
    case MailLocal => AsciiAlnum(c) || c in "._%+-"
    case MailDomain => AsciiAlnum(c) || c in ".-"
  }

  /** A class repeated at least `min` and, if bounded, at most `max` times. */
  datatype Atom = Atom(cls: Class, min: nat, max: Option<nat>)
  type Branch = seq<Atom>

  /** Alternatives in order, each between two word boundaries, and the replacement
      `[REDACTED:kind]`. */
  datatype Pattern = Pattern(branches: seq<Branch>, kind: string) {
    function Token(): string {
      Opening() + kind + "]"
    }
  }

  function Opening(): string {
    "[REDACTED:"
  }

  // ---- meaning

  predicate WordAt(u: Unicode, s: string, k: int) {
    0 <= k < |s| && IsWord(u, s[k])
  }

  /** `\b`: exactly one of the two neighbours is a word character. */
  predicate Boundary(u: Unicode, s: string, k: int) {
    WordAt(u, s, k - 1) != WordAt(u, s, k)
  }

  ghost predicate Repeats(u: Unicode, a: Atom, w: string, k: nat) {
    && a.min <= k <= |w| && (a.max.Some? ==> k <= a.max.value)
    && forall i :: 0 <= i < k ==> InClass(u, a.cls, w[i])
  }

  /** `w` is a word of the branch. */
  ghost predicate InLanguage(u: Unicode, b: Branch, w: string) {
    if b == [] then w == []
    else exists k: nat :: Repeats(u, b[0], w, k) && InLanguage(u, b[1..], w[k..])
  }

  ghost predicate IsMatch(u: Unicode, p: Pattern, s: string, i: int, j: int) {
    && 0 <= i <= j <= |s| && Boundary(u, s, i) && Boundary(u, s, j)
    && exists b :: b in p.branches && InLanguage(u, b, s[i..j])
  }

  ghost predicate NoMatch(u: Unicode, p: Pattern, s: string) {
    forall i, j :: !IsMatch(u, p, s, i, j)
  }

  // ---- the backtracking matcher

  /** How far a greedy repetition gets, before any backtracking. */
  function Greedy(u: Unicode, a: Atom, s: string, i: nat, taken: nat): (k: nat)
    requires i + taken <= |s|
    ensures taken <= k && i + k <= |s|
    decreases |s| - i - taken
  {
    if i + taken < |s| && (a.max.Some? ==> taken < a.max.value) && InClass(u, a.cls, s[i + taken])
    then Greedy(u, a, s, i, taken + 1)
    else taken
  }

  /** Matches the branch from `i` on and returns where the match ends. */
  function Run(u: Unicode, b: Branch, s: string, i: nat): Option<nat>
    requires i <= |s|
    decreases |b|, 1, 0
  {
    if b == [] then if Boundary(u, s, i) then Some(i) else None
    else Backtrack(u, b, s, i, Greedy(u, b[0], s, i, 0))
  }

  /** Tries the rest of the branch after `k` characters, then after fewer. */
  function Backtrack(u: Unicode, b: Branch, s: string, i: nat, k: nat): Option<nat>
    requires b != [] && i + k <= |s|
    decreases |b|, 0, k
  {
    if k < b[0].min then None
    else
      var r := Run(u, b[1..], s, i + k);
      if r.Some? then r
      else if k == 0 then None
      else Backtrack(u, b, s, i, k - 1)
  }

  function FirstBranch(u: Unicode, branches: seq<Branch>, s: string, i: nat): Option<nat>
    requires i <= |s|
  {
    if branches == [] then None
    else
      var r := Run(u, branches[0], s, i);
      if r.Some? then r else FirstBranch(u, branches[1..], s, i)
  }

  function MatchAt(u: Unicode, p: Pattern, s: string, i: nat): Option<nat>
    requires i <= |s|
  {
    if Boundary(u, s, i) then FirstBranch(u, p.branches, s, i) else None
  }

  // ---- the matcher decides the meaning

  lemma {:induction false} GreedyStaysInClass(u: Unicode, a: Atom, s: string, i: nat, taken: nat)
    requires i + taken <= |s| && (a.max.Some? ==> taken <= a.max.value)
    requires forall x :: i <= x < i + taken ==> InClass(u, a.cls, s[x])
    ensures var g := Greedy(u, a, s, i, taken);
            && (a.max.Some? ==> g <= a.max.value)
            && forall x :: i <= x < i + g ==> InClass(u, a.cls, s[x])
    decreases |s| - i - taken
  {
    if i + taken < |s| && (a.max.Some? ==> taken < a.max.value) && InClass(u, a.cls, s[i + taken]) {
      GreedyStaysInClass(u, a, s, i, taken + 1);
    }
  }

  lemma {:induction false} GreedyIsLongest(u: Unicode, a: Atom, s: string, i: nat, taken: nat, k: nat)
    requires taken <= k && i + k <= |s| && (a.max.Some? ==> k <= a.max.value)
    requires forall x :: i <= x < i + k ==> InClass(u, a.cls, s[x])
    ensures k <= Greedy(u, a, s, i, taken)
    decreases k - taken
  {
    if taken < k {
      GreedyIsLongest(u, a, s, i, taken + 1, k);
    }
  }

  lemma SliceParts(s: string, i: nat, k: nat, j: nat)
    requires i + k <= j <= |s|
    ensures s[i..j][k..] == s[i + k..j]
    ensures forall x :: 0 <= x < k ==> s[i..j][x] == s[i + x]
  {
  }

  lemma {:induction false} RunIsSound(u: Unicode, b: Branch, s: string, i: nat)
    requires i <= |s|
    ensures var r := Run(u, b, s, i);
            r.Some? ==> i <= r.value <= |s| && Boundary(u, s, r.value) && InLanguage(u, b, s[i..r.value])
    decreases |b|, 1, 0
  {
    if b != [] {
      GreedyStaysInClass(u, b[0], s, i, 0);
      BacktrackIsSound(u, b, s, i, Greedy(u, b[0], s, i, 0));
    }
  }

  lemma {:induction false} BacktrackIsSound(u: Unicode, b: Branch, s: string, i: nat, k: nat)
    requires b != [] && i + k <= |s| && (b[0].max.Some? ==> k <= b[0].max.value)
    requires forall x :: i <= x < i + k ==> InClass(u, b[0].cls, s[x])
    ensures var r := Backtrack(u, b, s, i, k);
            r.Some? ==> i <= r.value <= |s| && Boundary(u, s, r.value) && InLanguage(u, b, s[i..r.value])
    decreases |b|, 0, k
  {
    if k >= b[0].min {
      RunIsSound(u, b[1..], s, i + k);
      var r := Run(u, b[1..], s, i + k);
      if r.Some? {
        SliceParts(s, i, k, r.value);
        assert Repeats(u, b[0], s[i..r.value], k);
      } else if k > 0 {
        BacktrackIsSound(u, b, s, i, k - 1);
      }
    }
  }

  lemma {:induction false} RunIsComplete(u: Unicode, b: Branch, s: string, i: nat, j: nat)
    requires i <= j <= |s| && Boundary(u, s, j) && InLanguage(u, b, s[i..j])
    ensures Run(u, b, s, i).Some?
    decreases |b|, 1, 0
  {
    if b != [] {
      var w := s[i..j];
      var k: nat :| Repeats(u, b[0], w, k) && InLanguage(u, b[1..], w[k..]);
      SliceParts(s, i, k, j);
      forall x | i <= x < i + k ensures InClass(u, b[0].cls, s[x]) { assert w[x - i] == s[x]; }
      GreedyIsLongest(u, b[0], s, i, 0, k);
      BacktrackIsComplete(u, b, s, i, k, j, Greedy(u, b[0], s, i, 0));
    }
  }

  lemma {:induction false} BacktrackIsComplete(u: Unicode, b: Branch, s: string, i: nat, k: nat, j: nat, from: nat)
    requires b != [] && b[0].min <= k <= from && i + k <= j <= |s| && i + from <= |s|
    requires Boundary(u, s, j) && InLanguage(u, b[1..], s[i + k..j])
    ensures Backtrack(u, b, s, i, from).Some?
    decreases |b|, 0, from
  {
    if from == k {
      RunIsComplete(u, b[1..], s, i + k, j);
    } else {
      BacktrackIsComplete(u, b, s, i, k, j, from - 1);
    }
  }

  lemma {:induction false} FirstBranchDecides(u: Unicode, branches: seq<Branch>, s: string, i: nat)
    requires i <= |s|
    ensures var r := FirstBranch(u, branches, s, i);
            && (r.Some? ==> i <= r.value <= |s| && Boundary(u, s, r.value)
                            && exists b :: b in branches && InLanguage(u, b, s[i..r.value]))
            && (r.None? ==> forall b, j :: b in branches && i <= j <= |s| && Boundary(u, s, j) ==>
                            !InLanguage(u, b, s[i..j]))
  {
    if branches != [] {
      RunIsSound(u, branches[0], s, i);
      FirstBranchDecides(u, branches[1..], s, i);
      var r := FirstBranch(u, branches, s, i);
      if Run(u, branches[0], s, i).Some? {
        assert branches[0] in branches && InLanguage(u, branches[0], s[i..r.value]);
      } else {
        forall j | i <= j <= |s| && Boundary(u, s, j) ensures !InLanguage(u, branches[0], s[i..j]) {
          if InLanguage(u, branches[0], s[i..j]) { RunIsComplete(u, branches[0], s, i, j); }
        }
        assert branches == [branches[0]] + branches[1..];
      }
    }
  }

  /** The matcher finds a match at `i` exactly when there is one, and what it finds is one. */
  lemma MatcherDecides(u: Unicode, p: Pattern, s: string, i: nat)
    requires i <= |s|
    ensures MatchAt(u, p, s, i).Some? <==> exists j :: IsMatch(u, p, s, i, j)
    ensures MatchAt(u, p, s, i).Some? ==> IsMatch(u, p, s, i, MatchAt(u, p, s, i).value)
  {
    FirstBranchDecides(u, p.branches, s, i);
    if MatchAt(u, p, s, i).Some? {
      assert IsMatch(u, p, s, i, MatchAt(u, p, s, i).value);
    }
    if j :| IsMatch(u, p, s, i, j) {
      var b :| b in p.branches && InLanguage(u, b, s[i..j]);
      assert MatchAt(u, p, s, i).Some?;
    }
  }

  // ---- which match it finds

  /** How often each part of the branch is repeated in a match from `i` on. */
  ghost predicate Fits(u: Unicode, b: Branch, s: string, i: nat, counts: seq<nat>)
    decreases |b|
  {
    if b == [] then counts == [] && i <= |s| && Boundary(u, s, i)
    else
      && counts != [] && i + counts[0] <= |s|
      && b[0].min <= counts[0] && (b[0].max.Some? ==> counts[0] <= b[0].max.value)
      && (forall x :: i <= x < i + counts[0] ==> InClass(u, b[0].cls, s[x]))
      && Fits(u, b[1..], s, i + counts[0], counts[1..])
  }

  function Sum(counts: seq<nat>): nat {
    if counts == [] then 0 else counts[0] + Sum(counts[1..])
  }

  /** `a` repeats more than `b` at the first part where they differ, if they do. */
  ghost predicate AsGreedy(a: seq<nat>, b: seq<nat>) {
    a == [] || b == [] || a[0] > b[0] || (a[0] == b[0] && AsGreedy(a[1..], b[1..]))
  }

  lemma {:induction false} FitIsMatch(u: Unicode, b: Branch, s: string, i: nat, counts: seq<nat>)
    requires Fits(u, b, s, i, counts)
    ensures var j := i + Sum(counts);
            j <= |s| && Boundary(u, s, j) && InLanguage(u, b, s[i..j])
    decreases |b|
  {
    if b != [] {
      var k, j := counts[0], i + Sum(counts);
      FitIsMatch(u, b[1..], s, i + k, counts[1..]);
      SliceParts(s, i, k, j);
      assert Repeats(u, b[0], s[i..j], k);
    }
  }

  lemma {:induction false} RunIsGreedy(u: Unicode, b: Branch, s: string, i: nat) returns (counts: seq<nat>)
    requires i <= |s| && Run(u, b, s, i).Some?
    ensures Fits(u, b, s, i, counts) && Run(u, b, s, i).value == i + Sum(counts)
    ensures forall other :: Fits(u, b, s, i, other) ==> AsGreedy(counts, other)
    decreases |b|, 1, 0
  {
    if b == [] {
      counts := [];
    } else {
      GreedyStaysInClass(u, b[0], s, i, 0);
      var g := Greedy(u, b[0], s, i, 0);
      counts := BacktrackIsGreedy(u, b, s, i, g);
      forall other | Fits(u, b, s, i, other) ensures AsGreedy(counts, other) {
        GreedyIsLongest(u, b[0], s, i, 0, other[0]);
      }
    }
  }

  lemma {:induction false} BacktrackIsGreedy(u: Unicode, b: Branch, s: string, i: nat, k: nat)
    returns (counts: seq<nat>)
    requires b != [] && i + k <= |s| && (b[0].max.Some? ==> k <= b[0].max.value)
    requires forall x :: i <= x < i + k ==> InClass(u, b[0].cls, s[x])
    requires Backtrack(u, b, s, i, k).Some?
    ensures Fits(u, b, s, i, counts) && Backtrack(u, b, s, i, k).value == i + Sum(counts)
    ensures forall other :: Fits(u, b, s, i, other) && other[0] <= k ==> AsGreedy(counts, other)
    decreases |b|, 0, k
  {
    if Run(u, b[1..], s, i + k).Some? {
      var rest := RunIsGreedy(u, b[1..], s, i + k);
      counts := [k] + rest;
      assert counts[1..] == rest;
    } else {
      counts := BacktrackIsGreedy(u, b, s, i, k - 1);
      NoFit(u, b[1..], s, i + k);
    }
  }

  /** Of several matches at `i` the matcher finds Python's: the one of the first branch
      that has any, and there the one that repeats the earlier parts the most. */
  lemma {:induction false} FirstBranchIsPreferred(u: Unicode, branches: seq<Branch>, s: string, i: nat)
    returns (n: nat, counts: seq<nat>)
    requires i <= |s| && FirstBranch(u, branches, s, i).Some?
    ensures n < |branches| && Fits(u, branches[n], s, i, counts)
    ensures FirstBranch(u, branches, s, i).value == i + Sum(counts)
    ensures forall m, other :: 0 <= m < n ==> !Fits(u, branches[m], s, i, other)
    ensures forall other :: Fits(u, branches[n], s, i, other) ==> AsGreedy(counts, other)
    decreases |branches|
  {
    if Run(u, branches[0], s, i).Some? {
      n := 0;
      counts := RunIsGreedy(u, branches[0], s, i);
    } else {
      var k;
      k, counts := FirstBranchIsPreferred(u, branches[1..], s, i);
      n := k + 1;
      NoFit(u, branches[0], s, i);
      forall m, other | 0 <= m < n ensures !Fits(u, branches[m], s, i, other) {
        if m > 0 { assert branches[m] == branches[1..][m - 1]; }
      }
    }
  }

  lemma NoFit(u: Unicode, b: Branch, s: string, i: nat)
    requires i <= |s| && Run(u, b, s, i).None?
    ensures forall other :: !Fits(u, b, s, i, other)
  {
    forall other ensures !Fits(u, b, s, i, other) {
      if Fits(u, b, s, i, other) {
        FitIsMatch(u, b, s, i, other);
        RunIsComplete(u, b, s, i, i + Sum(other));
      }
    }
  }
}
