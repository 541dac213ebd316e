/** What the patterns of the redaction table stand for, character by character. */
module Shapes {
  import opened Basics
  import opened Regex
  import opened Substitution
  import opened Refinement
  import opened PiiTable

  // ---- the shapes

  predicate Beyond(c: char) { c as int >= 128 }

  predicate DigitLike(u: Unicode, c: char) { '0' <= c <= '9' || (Beyond(c) && u.digit(c)) }
  predicate BlankLike(u: Unicode, c: char) {
    9 <= c as int <= 13 || 28 <= c as int <= 32 || (Beyond(c) && u.space(c))
  }
  predicate WordLike(u: Unicode, c: char) { LetterOrDigit(c) || c == '_' || (Beyond(c) && u.word(c)) }
  predicate LetterOrDigit(c: char) { 'a' <= c <= 'z' || 'A' <= c <= 'Z' || '0' <= c <= '9' }
  predicate KeyLike(c: char) { LetterOrDigit(c) || c == '_' || c == '-' }

  /** `c` is the small letter `l`, or equals it when case is ignored. */
  predicate SameLetter(u: Unicode, c: char, l: char) {
    c == l || ('A' <= c <= 'Z' && c as int + 32 == l as int) || (Beyond(c) && u.fold(c) == l)
  }

  /** 19 characters: digits, but blanks or dashes at 4, 9 and 14. */
  ghost predicate CardShape(u: Unicode, w: string) {
    |w| == 19 && forall x :: 0 <= x < 19 ==>
      if x == 4 || x == 9 || x == 14 then BlankLike(u, w[x]) || w[x] == '-' else DigitLike(u, w[x])
  }

  /** 11 characters: digits, but dashes at 3 and 6. */
  ghost predicate SsnShape(u: Unicode, w: string) {
    |w| == 11 && forall x :: 0 <= x < 11 ==> if x == 3 || x == 6 then w[x] == '-' else DigitLike(u, w[x])
  }

  /** "sk-" and at least 32 key characters. */
  ghost predicate KeyShape(w: string) {
    |w| >= 35 && w[..3] == "sk-" && forall x :: 3 <= x < |w| ==> KeyLike(w[x])
  }

  /** A prefix in any case, a dash or underscore, and at least 20 key characters, also those
      beyond ASCII that equal a letter when case is ignored. */
  ghost predicate SecretShape(u: Unicode, prefix: string, w: string) {
    var n := |prefix|;
    && |w| >= n + 21 && (forall x :: 0 <= x < n ==> SameLetter(u, w[x], prefix[x]))
    && (w[n] == '-' || w[n] == '_')
    && forall x :: n < x < |w| ==> KeyLike(w[x]) || (Beyond(w[x]) && 'a' <= u.fold(w[x]) <= 'z')
  }

  /** "AKIA" and 16 capitals or digits. */
  ghost predicate AwsShape(w: string) {
    |w| == 20 && w[..4] == "AKIA" && forall x :: 4 <= x < 20 ==> 'A' <= w[x] <= 'Z' || '0' <= w[x] <= '9'
  }

  /** "ghp_" and 36 letters or digits. */
  ghost predicate GithubShape(w: string) {
    |w| == 40 && w[..4] == "ghp_" && forall x :: 4 <= x < 40 ==> LetterOrDigit(w[x])
  }

  /** An at sign at `i` with a local part before it, and a dot at `j` with a domain before
      it and at least two letters, and nothing else, behind it. */
  ghost predicate EmailShape(w: string, i: int, j: int) {
    && 0 < i && i + 1 < j && j + 2 < |w| && w[i] == '@' && w[j] == '.'
    && (forall x :: 0 <= x < i ==> LetterOrDigit(w[x]) || w[x] in "._%+-")
    && (forall x :: i < x < j ==> LetterOrDigit(w[x]) || w[x] == '.' || w[x] == '-')
    && forall x :: j < x < |w| ==> 'a' <= w[x] <= 'z' || 'A' <= w[x] <= 'Z'
  }

  const SECRET_PREFIXES := {"sk", "pk", "api", "secret", "token", "auth"}

  ghost predicate HasShape(u: Unicode, kind: string, w: string) {
    || (kind == "credit_card" && CardShape(u, w))
    || (kind == "ssn" && SsnShape(u, w))
    || (kind == "api_key" && (KeyShape(w) || exists prefix :: prefix in SECRET_PREFIXES && SecretShape(u, prefix, w)))
    || (kind == "aws_key" && AwsShape(w))
    || (kind == "github_token" && GithubShape(w))
    || (kind == "email" && exists i, j :: EmailShape(w, i, j))
  }

  // ---- words part by part

  ghost predicate AllIn(u: Unicode, cls: Class, w: string, i: int, j: int) {
    0 <= i <= j <= |w| && forall x :: i <= x < j ==> InClass(u, cls, w[x])
  }

  /** The rest of the branch from part `k` on takes the word from `i` on. */
  ghost predicate Takes(u: Unicode, b: Branch, k: int, w: string, i: int) {
    0 <= k <= |b| && 0 <= i <= |w| && InLanguage(u, b[k..], w[i..])
  }

  ghost predicate PartTakes(u: Unicode, b: Branch, k: int, w: string, i: int, j: int)
    requires 0 <= k < |b|
  {
    && AllIn(u, b[k].cls, w, i, j) && i + b[k].min <= j && (b[k].max.Some? ==> j <= i + b[k].max.value)
    && Takes(u, b, k + 1, w, j)
  }

  lemma TailOf(w: string, i: nat, n: nat)
    requires i + n <= |w|
    ensures w[i..][n..] == w[i + n..]
  {
  }

  lemma OnePart(u: Unicode, b: Branch, k: nat, w: string, i: nat)
    requires k < |b| && i <= |w|
    ensures Takes(u, b, k, w, i) <==> exists j :: PartTakes(u, b, k, w, i, j)
  {
    assert b[k..][0] == b[k] && b[k..][1..] == b[k + 1..];
    if Takes(u, b, k, w, i) {
      var n: nat :| Repeats(u, b[k], w[i..], n) && InLanguage(u, b[k + 1..], w[i..][n..]);
      TailOf(w, i, n);
      forall x | i <= x < i + n ensures InClass(u, b[k].cls, w[x]) { assert w[i..][x - i] == w[x]; }
      assert PartTakes(u, b, k, w, i, i + n);
    }
    if j :| PartTakes(u, b, k, w, i, j) {
      var n: nat := j - i;
      TailOf(w, i, n);
      assert Repeats(u, b[k], w[i..], n);
    }
  }

  /** A part with a fixed count takes so many characters. */
  lemma FixedPart(u: Unicode, b: Branch, k: nat, w: string, i: int)
    requires k < |b| && b[k].max == Some(b[k].min)
    ensures Takes(u, b, k, w, i) <==>
            AllIn(u, b[k].cls, w, i, i + b[k].min) && Takes(u, b, k + 1, w, i + b[k].min)
  {
    if 0 <= i <= |w| {
      OnePart(u, b, k, w, i);
      if AllIn(u, b[k].cls, w, i, i + b[k].min) && Takes(u, b, k + 1, w, i + b[k].min) {
        assert PartTakes(u, b, k, w, i, i + b[k].min);
      }
    }
  }

  /** Nothing follows the last part. */
  lemma AllTaken(u: Unicode, b: Branch, w: string, i: int)
    ensures Takes(u, b, |b|, w, i) <==> i == |w|
  {
  }

  lemma LastPart(u: Unicode, b: Branch, k: nat, w: string, i: int)
    requires k + 1 == |b| && b[k].max.None?
    ensures Takes(u, b, k, w, i) <==> AllIn(u, b[k].cls, w, i, |w|) && i + b[k].min <= |w|
  {
    if 0 <= i <= |w| {
      OnePart(u, b, k, w, i);
      AllTaken(u, b, w, |w|);
      if AllIn(u, b[k].cls, w, i, |w|) && i + b[k].min <= |w| {
        assert PartTakes(u, b, k, w, i, |w|);
      }
      if j :| PartTakes(u, b, k, w, i, j) { AllTaken(u, b, w, j); }
    }
  }

  lemma Whole(u: Unicode, b: Branch, w: string)
    ensures InLanguage(u, b, w) <==> Takes(u, b, 0, w, 0)
  {
    assert b[0..] == b && w[0..] == w;
  }

  lemma OneBranch(u: Unicode, b: Branch, kind: string, w: string)
    ensures IsWordOf(u, Pattern([b], kind), w) <==> InLanguage(u, b, w)
  {
    assert Pattern([b], kind).branches[0] == b;
  }

  // ---- the seven patterns

  lemma DigitsAre(u: Unicode, c: char)
    ensures InClass(u, Digit, c) <==> DigitLike(u, c)
    ensures InClass(u, SpaceOrDash, c) <==> BlankLike(u, c) || c == '-'
  {
  }

  lemma CardIs(u: Unicode, w: string)
    ensures IsWordOf(u, CreditCard(), w) <==> CardShape(u, w)
  {
    var b := CreditCard().branches[0];
    OneBranch(u, b, "credit_card", w);
    Whole(u, b, w);
    FixedPart(u, b, 0, w, 0);
    FixedPart(u, b, 1, w, 4);
    FixedPart(u, b, 2, w, 5);
    FixedPart(u, b, 3, w, 9);
    FixedPart(u, b, 4, w, 10);
    FixedPart(u, b, 5, w, 14);
    FixedPart(u, b, 6, w, 15);
    AllTaken(u, b, w, 19);
    CardParts(u, w);
  }

  lemma CardParts(u: Unicode, w: string)
    ensures CardShape(u, w) <==>
            && |w| == 19 && AllIn(u, Digit, w, 0, 4) && AllIn(u, SpaceOrDash, w, 4, 5) && AllIn(u, Digit, w, 5, 9)
            && AllIn(u, SpaceOrDash, w, 9, 10) && AllIn(u, Digit, w, 10, 14) && AllIn(u, SpaceOrDash, w, 14, 15)
            && AllIn(u, Digit, w, 15, 19)
  {
    forall x | 0 <= x < |w| ensures InClass(u, Digit, w[x]) <==> DigitLike(u, w[x]) { DigitsAre(u, w[x]); }
    forall x | 0 <= x < |w| ensures InClass(u, SpaceOrDash, w[x]) <==> BlankLike(u, w[x]) || w[x] == '-' {
      DigitsAre(u, w[x]);
    }
  }

  lemma SsnIs(u: Unicode, w: string)
    ensures IsWordOf(u, Ssn(), w) <==> SsnShape(u, w)
  {
    var b := Ssn().branches[0];
    OneBranch(u, b, "ssn", w);
    Whole(u, b, w);
    FixedPart(u, b, 0, w, 0);
    FixedPart(u, b, 1, w, 3);
    FixedPart(u, b, 2, w, 4);
    FixedPart(u, b, 3, w, 6);
    FixedPart(u, b, 4, w, 7);
    AllTaken(u, b, w, 11);
    SsnParts(u, w);
  }

  lemma SsnParts(u: Unicode, w: string)
    ensures SsnShape(u, w) <==>
            && |w| == 11 && AllIn(u, Digit, w, 0, 3) && AllIn(u, Lit('-'), w, 3, 4) && AllIn(u, Digit, w, 4, 6)
            && AllIn(u, Lit('-'), w, 6, 7) && AllIn(u, Digit, w, 7, 11)
  {
    forall x | 0 <= x < |w| ensures InClass(u, Digit, w[x]) <==> DigitLike(u, w[x]) { DigitsAre(u, w[x]); }
  }

  ghost predicate LettersIn(u: Unicode, b: Branch, n: nat, w: string) {
    n <= |b| && n <= |w| && forall x :: 0 <= x < n ==> InClass(u, b[x].cls, w[x])
  }

  /** Parts that take one character each. */
  lemma {:induction false} LettersTake(u: Unicode, b: Branch, n: nat, w: string)
    requires n <= |b| && forall x :: 0 <= x < n ==> b[x] == Once(b[x].cls)
    ensures Takes(u, b, 0, w, 0) <==> LettersIn(u, b, n, w) && Takes(u, b, n, w, n)
  {
    if n > 0 {
      LettersTake(u, b, n - 1, w);
      FixedPart(u, b, n - 1, w, n - 1);
    }
  }

  /** A literal, and then one class up to the end. */
  lemma LiteralIs(u: Unicode, v: string, last: Atom, w: string)
    requires last.max == None || last.max == Some(last.min)
    ensures InLanguage(u, Word(v) + [last], w) <==>
            && |v| <= |w| && w[..|v|] == v && AllIn(u, last.cls, w, |v|, |w|)
            && |v| + last.min <= |w| && (last.max.Some? ==> |w| == |v| + last.min)
  {
    var b, n := Word(v) + [last], |v|;
    Whole(u, b, w);
    LettersTake(u, b, n, w);
    assert b[n] == last && forall x :: 0 <= x < n ==> b[x].cls == Lit(v[x]);
    if last.max.None? {
      LastPart(u, b, n, w, n);
    } else {
      FixedPart(u, b, n, w, n);
      AllTaken(u, b, w, n + last.min);
    }
  }

  lemma KeyIs(u: Unicode, w: string)
    ensures IsWordOf(u, ApiKey(), w) <==> KeyShape(w)
  {
    OneBranch(u, ApiKey().branches[0], "api_key", w);
    LiteralIs(u, "sk-", AtLeast(Key, 32), w);
  }

  lemma AwsIs(u: Unicode, w: string)
    ensures IsWordOf(u, AwsKey(), w) <==> AwsShape(w)
  {
    OneBranch(u, AwsKey().branches[0], "aws_key", w);
    LiteralIs(u, "AKIA", Times(UpperOrDigit, 16), w);
  }

  lemma GithubIs(u: Unicode, w: string)
    ensures IsWordOf(u, GithubToken(), w) <==> GithubShape(w)
  {
    OneBranch(u, GithubToken().branches[0], "github_token", w);
    LiteralIs(u, "ghp_", Times(Alnum, 36), w);
  }

  lemma LettersAre(u: Unicode, c: char, l: char)
    requires 'a' <= l <= 'z'
    ensures InClass(u, LitIgnoreCase(l), c) <==> SameLetter(u, c, l)
    ensures InClass(u, KeyIgnoreCase, c) <==> KeyLike(c) || (Beyond(c) && 'a' <= u.fold(c) <= 'z')
  {
  }

  lemma PrefixedIs(u: Unicode, prefix: string, w: string)
    requires forall x :: 0 <= x < |prefix| ==> 'a' <= prefix[x] <= 'z'
    ensures InLanguage(u, Prefixed(prefix), w) <==> SecretShape(u, prefix, w)
  {
    var b, n := Prefixed(prefix), |prefix|;
    Whole(u, b, w);
    LettersTake(u, b, n, w);
    FixedPart(u, b, n, w, n);
    LastPart(u, b, n + 1, w, n + 1);
    forall x | 0 <= x < |w| ensures x < n ==> (InClass(u, b[x].cls, w[x]) <==> SameLetter(u, w[x], prefix[x])) {
      if x < n { LettersAre(u, w[x], prefix[x]); }
    }
    forall x | 0 <= x < |w|
      ensures InClass(u, KeyIgnoreCase, w[x]) <==> KeyLike(w[x]) || (Beyond(w[x]) && 'a' <= u.fold(w[x]) <= 'z')
    {
      LettersAre(u, w[x], 'a');
    }
  }

  lemma PrefixesAre(prefix: string)
    ensures prefix in SECRET_PREFIXES <==> exists i :: 0 <= i < |Prefixes()| && Prefixes()[i] == prefix
  {
    var ps := Prefixes();
    assert ps == ["sk", "pk", "api", "secret", "token", "auth"];
    assert ps[0] == "sk" && ps[1] == "pk" && ps[2] == "api" && ps[3] == "secret" && ps[4] == "token" && ps[5] == "auth";
  }

  lemma SecretIs(u: Unicode, w: string)
    ensures IsWordOf(u, SecretKey(), w) <==> exists prefix :: prefix in SECRET_PREFIXES && SecretShape(u, prefix, w)
  {
    if IsWordOf(u, SecretKey(), w) {
      var b :| b in SecretKey().branches && InLanguage(u, b, w);
      var i :| 0 <= i < |Prefixes()| && b == Prefixed(Prefixes()[i]);
      BranchIs(u, i, w);
    }
    if prefix :| prefix in SECRET_PREFIXES && SecretShape(u, prefix, w) {
      PrefixesAre(prefix);
      var i :| 0 <= i < |Prefixes()| && Prefixes()[i] == prefix;
      BranchIs(u, i, w);
    }
  }

  lemma BranchIs(u: Unicode, i: nat, w: string)
    requires i < |Prefixes()|
    ensures Prefixed(Prefixes()[i]) in SecretKey().branches && Prefixes()[i] in SECRET_PREFIXES
    ensures InLanguage(u, Prefixed(Prefixes()[i]), w) <==> SecretShape(u, Prefixes()[i], w)
  {
    PrefixIsSmall(i);
    PrefixedIs(u, Prefixes()[i], w);
    PrefixesAre(Prefixes()[i]);
    assert SecretKey().branches[i] == Prefixed(Prefixes()[i]);
  }

  lemma PrefixIsSmall(i: nat)
    requires i < 6
    ensures forall x :: 0 <= x < |Prefixes()[i]| ==> 'a' <= Prefixes()[i][x] <= 'z'
  {
  }

  lemma EmailIs(u: Unicode, w: string)
    ensures IsWordOf(u, Email(), w) <==> exists i, j :: EmailShape(w, i, j)
  {
    var b := Email().branches[0];
    OneBranch(u, b, "email", w);
    Whole(u, b, w);
    if Takes(u, b, 0, w, 0) { var i, j := EmailFound(u, w); }
    if i, j :| EmailShape(w, i, j) { EmailTaken(u, w, i, j); }
  }

  lemma EmailFound(u: Unicode, w: string) returns (i: int, j: int)
    requires Takes(u, Email().branches[0], 0, w, 0)
    ensures EmailShape(w, i, j)
  {
    var b := Email().branches[0];
    OnePart(u, b, 0, w, 0);
    i :| PartTakes(u, b, 0, w, 0, i);
    FixedPart(u, b, 1, w, i);
    OnePart(u, b, 2, w, i + 1);
    j :| PartTakes(u, b, 2, w, i + 1, j);
    EmailEnds(u, w, j);
    EmailParts(u, w, i, j);
  }

  lemma EmailTaken(u: Unicode, w: string, i: int, j: int)
    requires EmailShape(w, i, j)
    ensures Takes(u, Email().branches[0], 0, w, 0)
  {
    var b := Email().branches[0];
    EmailParts(u, w, i, j);
    EmailEnds(u, w, j);
    assert PartTakes(u, b, 2, w, i + 1, j);
    OnePart(u, b, 2, w, i + 1);
    FixedPart(u, b, 1, w, i);
    assert PartTakes(u, b, 0, w, 0, i);
    OnePart(u, b, 0, w, 0);
  }

  lemma EmailEnds(u: Unicode, w: string, j: nat)
    ensures Takes(u, Email().branches[0], 3, w, j) <==>
            AllIn(u, Lit('.'), w, j, j + 1) && AllIn(u, Letter, w, j + 1, |w|) && j + 3 <= |w|
  {
    FixedPart(u, Email().branches[0], 3, w, j);
    LastPart(u, Email().branches[0], 4, w, j + 1);
  }

  lemma EmailParts(u: Unicode, w: string, i: int, j: int)
    ensures EmailShape(w, i, j) <==>
            && 0 < i && AllIn(u, MailLocal, w, 0, i) && AllIn(u, Lit('@'), w, i, i + 1)
            && i + 1 < j && AllIn(u, MailDomain, w, i + 1, j) && AllIn(u, Lit('.'), w, j, j + 1)
            && AllIn(u, Letter, w, j + 1, |w|) && j + 3 <= |w|
  {
  }

  // ---- the table

  lemma WordsAre(u: Unicode, w: string)
    ensures IsWordOf(u, CreditCard(), w) <==> CardShape(u, w)
    ensures IsWordOf(u, Ssn(), w) <==> SsnShape(u, w)
    ensures IsWordOf(u, ApiKey(), w) <==> KeyShape(w)
    ensures IsWordOf(u, SecretKey(), w) <==> exists prefix :: prefix in SECRET_PREFIXES && SecretShape(u, prefix, w)
    ensures IsWordOf(u, AwsKey(), w) <==> AwsShape(w)
    ensures IsWordOf(u, GithubToken(), w) <==> GithubShape(w)
    ensures IsWordOf(u, Email(), w) <==> exists i, j :: EmailShape(w, i, j)
  {
    CardIs(u, w);
    SsnIs(u, w);
    KeyIs(u, w);
    SecretIs(u, w);
    AwsIs(u, w);
    GithubIs(u, w);
    EmailIs(u, w);
  }

  /** The words of the table's patterns of a kind are the texts of that shape. */
  lemma TableIs(u: Unicode, kind: string, w: string)
    ensures (exists p :: p in Table() && p.kind == kind && IsWordOf(u, p, w)) <==> HasShape(u, kind, w)
  {
    WordsAre(u, w);
    if HasShape(u, kind, w) {
      var p := PatternOf(u, kind, w);
    }
  }

  lemma PatternOf(u: Unicode, kind: string, w: string) returns (p: Pattern)
    requires HasShape(u, kind, w)
    ensures p in Table() && p.kind == kind && IsWordOf(u, p, w)
  {
    WordsAre(u, w);
    var t := Table();
    p := if kind == "credit_card" then t[0]
         else if kind == "ssn" then t[1]
         else if kind == "api_key" && KeyShape(w) then t[2]
         else if kind == "api_key" then t[3]
         else if kind == "aws_key" then t[4]
         else if kind == "github_token" then t[5]
         else t[6];
  }

  /** A word begins or ends at `k`: of its two neighbours, if there are two, exactly one is a
      word character, and the only one is. */
  predicate WordEdge(u: Unicode, s: string, k: int)
    requires 0 <= k <= |s|
  {
    (k > 0 && WordLike(u, s[k - 1])) != (k < |s| && WordLike(u, s[k]))
  }

  lemma EdgesAre(u: Unicode, s: string, k: int)
    requires 0 <= k <= |s|
    ensures Boundary(u, s, k) <==> WordEdge(u, s, k)
  {
  }

  /** A stretch of the text stands between word boundaries and has the shape. */
  ghost predicate ShapeAt(u: Unicode, s: string, kind: string, i: int, j: int) {
    0 <= i <= j <= |s| && WordEdge(u, s, i) && WordEdge(u, s, j) && HasShape(u, kind, s[i..j])
  }

  lemma MatchesAre(u: Unicode, s: string, kind: string, i: int, j: int)
    ensures (exists p :: p in Table() && p.kind == kind && IsMatch(u, p, s, i, j)) <==> ShapeAt(u, s, kind, i, j)
  {
    if 0 <= i <= j <= |s| {
      TableIs(u, kind, s[i..j]);
      EdgesAre(u, s, i);
      EdgesAre(u, s, j);
      if ShapeAt(u, s, kind, i, j) {
        var p :| p in Table() && p.kind == kind && IsWordOf(u, p, s[i..j]);
        assert IsMatch(u, p, s, i, j);
      }
      if exists p :: p in Table() && p.kind == kind && IsMatch(u, p, s, i, j) {
        var p :| p in Table() && p.kind == kind && IsMatch(u, p, s, i, j);
        assert IsWordOf(u, p, s[i..j]);
      }
    }
  }

  ghost predicate NoShape(u: Unicode, s: string) {
    forall kind, i, j :: !ShapeAt(u, s, kind, i, j)
  }

  lemma NoShapeIff(u: Unicode, s: string)
    ensures NoShape(u, s) <==> forall p :: p in Table() ==> NoMatch(u, p, s)
  {
    if NoShape(u, s) {
      forall p, i, j | p in Table() ensures !IsMatch(u, p, s, i, j) { MatchesAre(u, s, p.kind, i, j); }
    } else {
      var kind, i, j :| ShapeAt(u, s, kind, i, j);
      MatchesAre(u, s, kind, i, j);
    }
  }
}
