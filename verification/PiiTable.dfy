/** The table of patterns of `redact_pii` (workspace-template/builtin_tools/compliance.py). */
module PiiTable {
  import opened Basics
  import opened Regex
  import opened Substitution

  function Once(cls: Class): Atom { Atom(cls, 1, Some(1)) }
  function Times(cls: Class, n: nat): Atom { Atom(cls, n, Some(n)) }
  function AtLeast(cls: Class, n: nat): Atom { Atom(cls, n, None) }

  function Word(w: string): Branch {
    seq(|w|, i requires 0 <= i < |w| => Once(Lit(w[i])))
  }

  function WordIgnoreCase(w: string): Branch {
    seq(|w|, i requires 0 <= i < |w| => Once(LitIgnoreCase(w[i])))
  }

  /** Four groups of four digits, a blank or a dash between any two. */
  function CreditCard(): Pattern {
    var four, gap := Times(Digit, 4), Once(SpaceOrDash);
    Pattern([[four, gap, four, gap, four, gap, four]], "credit_card")
  }

  /** Three, two and four digits, with dashes. */
  function Ssn(): Pattern {
    Pattern([[Times(Digit, 3), Once(Lit('-')), Times(Digit, 2), Once(Lit('-')), Times(Digit, 4)]], "ssn")
  }

  /** A fixed prefix and at least 32 key characters. */
  function ApiKey(): Pattern {
    Pattern([Word("sk-") + [AtLeast(Key, 32)]], "api_key")
  }

  function Prefixes(): seq<string> {
    ["sk", "pk", "api", "secret", "token", "auth"]
  }

  function Prefixed(prefix: string): Branch {
    WordIgnoreCase(prefix) + [Once(DashOrUnderscore), AtLeast(KeyIgnoreCase, 20)]
  }

  /** One of six prefixes, a dash or underscore, and at least 20 key characters, in any case. */
  function SecretKey(): Pattern {
    Pattern(seq(|Prefixes()|, i requires 0 <= i < |Prefixes()| => Prefixed(Prefixes()[i])), "api_key")
  }

  /** A fixed prefix and 16 capitals or digits. */
  function AwsKey(): Pattern {
    Pattern([Word("AKIA") + [Times(UpperOrDigit, 16)]], "aws_key")
  }

  /** A fixed prefix and 36 letters or digits. */
  function GithubToken(): Pattern {
    Pattern([Word("ghp_") + [Times(Alnum, 36)]], "github_token")
  }

  /** A local part, a domain, and a last label of at least two letters. */
  function Email(): Pattern {
    Pattern([[AtLeast(MailLocal, 1), Once(Lit('@')), AtLeast(MailDomain, 1), Once(Lit('.')), AtLeast(Letter, 2)]],
            "email")
  }

  function Table(): seq<Pattern> {
    [CreditCard(), Ssn(), ApiKey(), SecretKey(), AwsKey(), GithubToken(), Email()]
  }

  // ---- the table is sane

  lemma {:induction false} MinLengthAppend(a: Branch, b: Branch)
    ensures MinLength(a + b) == MinLength(a) + MinLength(b)
  {
    if a == [] {
      assert a + b == b;
    } else {
      assert (a + b)[1..] == a[1..] + b;
      MinLengthAppend(a[1..], b);
    }
  }

  lemma {:induction false} WordLength(b: Branch)
    requires forall a :: a in b ==> a.min == 1
    ensures MinLength(b) == |b|
  {
    if b != [] {
      WordLength(b[1..]);
    }
  }

  lemma {:induction false} MinLengthAtLeast(b: Branch, k: nat)
    requires k < |b|
    ensures MinLength(b) >= b[k].min
  {
    if k > 0 { MinLengthAtLeast(b[1..], k - 1); }
  }

  /** A literal without delimiters followed by long enough repetitions. */
  lemma LongBranchIsSane(word: Branch, rest: Branch)
    requires forall a :: a in word ==> a.min == 1
    requires forall a :: a in word + rest ==> NoBracket(a.cls)
    requires |word| + MinLength(rest) >= 20
    ensures SaneBranch(word + rest)
  {
    MinLengthAppend(word, rest);
    WordLength(word);
  }

  lemma ShortBranchIsSane(b: Branch, k: nat)
    requires k < |b| && b[k].min > 0 && NoTokenLetter(b[k].cls)
    requires forall a :: a in b ==> NoBracket(a.cls)
    ensures SaneBranch(b)
  {
    MinLengthAtLeast(b, k);
    assert b[k] in b;
  }

  lemma CardIsSane()
    ensures Sane(CreditCard())
  {
    ShortBranchIsSane(CreditCard().branches[0], 0);
  }

  lemma SsnIsSane()
    ensures Sane(Ssn())
  {
    ShortBranchIsSane(Ssn().branches[0], 0);
  }

  lemma EmailIsSane()
    ensures Sane(Email())
  {
    ShortBranchIsSane(Email().branches[0], 1);
  }

  lemma OneLong(cls: Class, n: nat, max: Option<nat>)
    ensures MinLength([Atom(cls, n, max)]) == n
  {
    assert [Atom(cls, n, max)][1..] == [];
  }

  lemma KeysAreSane()
    ensures Sane(ApiKey()) && Sane(AwsKey()) && Sane(GithubToken())
  {
    LiteralIsSane("sk-", Key, 32, None);
    LiteralIsSane("AKIA", UpperOrDigit, 16, Some(16));
    LiteralIsSane("ghp_", Alnum, 36, Some(36));
  }

  lemma LiteralIsSane(w: string, cls: Class, n: nat, max: Option<nat>)
    requires NoBracket(cls) && |w| + n >= 20 && forall i :: 0 <= i < |w| ==> !Bracket(w[i])
    ensures SaneBranch(Word(w) + [Atom(cls, n, max)])
  {
    OneLong(cls, n, max);
    LongBranchIsSane(Word(w), [Atom(cls, n, max)]);
  }

  lemma PrefixedIsSane(prefix: string)
    requires forall i :: 0 <= i < |prefix| ==> !Bracket(prefix[i])
    ensures SaneBranch(Prefixed(prefix))
  {
    var rest := [Once(DashOrUnderscore), AtLeast(KeyIgnoreCase, 20)];
    assert rest == [Once(DashOrUnderscore)] + [AtLeast(KeyIgnoreCase, 20)];
    MinLengthAppend([Once(DashOrUnderscore)], [AtLeast(KeyIgnoreCase, 20)]);
    OneLong(KeyIgnoreCase, 20, None);
    LongBranchIsSane(WordIgnoreCase(prefix), rest);
  }

  lemma PrefixesAreClean(i: nat, k: nat)
    requires i < |Prefixes()| && k < |Prefixes()[i]|
    ensures !Bracket(Prefixes()[i][k])
  {
  }

  lemma SecretsAreSane()
    ensures Sane(SecretKey())
  {
    var p := SecretKey();
    forall b | b in p.branches ensures SaneBranch(b) {
      var i :| 0 <= i < |Prefixes()| && b == Prefixed(Prefixes()[i]);
      forall k | 0 <= k < |Prefixes()[i]| ensures !Bracket(Prefixes()[i][k]) { PrefixesAreClean(i, k); }
      PrefixedIsSane(Prefixes()[i]);
    }
  }

  ghost predicate AllSane(ps: seq<Pattern>) {
    forall p :: p in ps ==> Sane(p)
  }

  lemma TableIsSane()
    ensures AllSane(Table())
  {
    CardIsSane();
    SsnIsSane();
    EmailIsSane();
    KeysAreSane();
    SecretsAreSane();
  }
}
