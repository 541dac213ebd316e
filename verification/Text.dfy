/** The string operations of Python that several components use.  A character beyond ASCII
    is classified by tables the model leaves open (module Regex). */
module Text {
  import opened Regex

  /** The string without its blanks in front. */
  function TrimLeft(blank: char -> bool, s: string): string {
    if s != "" && blank(s[0]) then TrimLeft(blank, s[1..]) else s
  }

  function TrimRight(blank: char -> bool, s: string): string {
    if s != "" && blank(s[|s| - 1]) then TrimRight(blank, s[..|s| - 1]) else s
  }

  function Trim(blank: char -> bool, s: string): string {
    TrimRight(blank, TrimLeft(blank, s))
  }

  function Blank(u: Unicode): char -> bool {
    c => IsSpace(u, c)
  }

  /** `s.strip()` */
  function Strip(u: Unicode, s: string): string {
    Trim(Blank(u), s)
  }

  /** `part in s` */
  predicate Contains(s: string, part: string) {
    (|part| <= |s| && s[..|part|] == part) || (s != "" && Contains(s[1..], part))
  }

  lemma {:induction false} ContainsAt(s: string, part: string, i: nat)
    requires i + |part| <= |s| && s[i..i + |part|] == part
    ensures Contains(s, part)
    decreases i
  {
    if i == 0 {
      assert s[..|part|] == part;
    } else {
      assert s[1..][i - 1..i - 1 + |part|] == part;
      ContainsAt(s[1..], part, i - 1);
    }
  }

  lemma {:induction false} ContainsWhere(s: string, part: string) returns (i: nat)
    requires Contains(s, part)
    ensures i + |part| <= |s| && s[i..i + |part|] == part
  {
    if |part| <= |s| && s[..|part|] == part {
      i := 0;
    } else {
      var k := ContainsWhere(s[1..], part);
      assert s[1..][k..k + |part|] == s[k + 1..k + 1 + |part|];
      i := k + 1;
    }
  }

  ghost predicate OccursAt(s: string, part: string, i: int) {
    0 <= i && i + |part| <= |s| && s[i..i + |part|] == part
  }

  lemma ContainsMeans(s: string, part: string)
    ensures Contains(s, part) <==> exists i :: OccursAt(s, part, i)
  {
    if Contains(s, part) {
      var i := ContainsWhere(s, part);
      assert OccursAt(s, part, i);
    }
    if i :| OccursAt(s, part, i) {
      ContainsAt(s, part, i);
    }
  }

  /** A longer text contains what its part contains. */
  lemma ContainsMore(a: string, s: string, b: string, part: string)
    requires Contains(s, part)
    ensures Contains(a + s + b, part)
  {
    var i := ContainsWhere(s, part);
    assert (a + s + b)[|a| + i..|a| + i + |part|] == s[i..i + |part|];
    ContainsAt(a + s + b, part, |a| + i);
  }

  lemma {:induction false} TrimLeftIs(blank: char -> bool, s: string) returns (i: nat)
    ensures i <= |s| && TrimLeft(blank, s) == s[i..]
    ensures i < |s| ==> !blank(s[i])
    ensures forall k :: 0 <= k < i ==> blank(s[k])
  {
    i := 0;
    if s != "" && blank(s[0]) {
      var k := TrimLeftIs(blank, s[1..]);
      i := k + 1;
      assert s[1..][k..] == s[i..];
      forall j | 0 <= j < i ensures blank(s[j]) {
        if j > 0 { assert s[1..][j - 1] == s[j]; }
      }
    }
  }

  lemma {:induction false} TrimRightIs(blank: char -> bool, s: string) returns (j: nat)
    ensures j <= |s| && TrimRight(blank, s) == s[..j]
    ensures j > 0 ==> !blank(s[j - 1])
    ensures forall k :: j <= k < |s| ==> blank(s[k])
  {
    j := |s|;
    if s != "" && blank(s[|s| - 1]) {
      var front := s[..|s| - 1];
      j := TrimRightIs(blank, front);
      assert front[..j] == s[..j];
      forall k | j <= k < |s| ensures blank(s[k]) {
        if k < |s| - 1 { assert front[k] == s[k]; }
      }
    }
  }

  /** Trimming takes away all blanks at both ends and nothing else. */
  lemma TrimIs(blank: char -> bool, s: string) returns (i: nat, j: nat)
    ensures i <= j <= |s| && Trim(blank, s) == s[i..j]
    ensures i < j ==> !blank(s[i]) && !blank(s[j - 1])
    ensures forall k :: 0 <= k < i || j <= k < |s| ==> blank(s[k])
  {
    i := TrimLeftIs(blank, s);
    var n := TrimRightIs(blank, s[i..]);
    j := i + n;
    assert s[i..][..n] == s[i..j];
    forall k | j <= k < |s| ensures blank(s[k]) { assert s[i..][k - i] == s[k]; }
    if i < j { assert s[i..][n - 1] == s[j - 1]; }
  }

  /** So it is for Python's blanks. */
  lemma StripIs(u: Unicode, s: string) returns (i: nat, j: nat)
    ensures i <= j <= |s| && Strip(u, s) == s[i..j]
    ensures i < j ==> !IsSpace(u, s[i]) && !IsSpace(u, s[j - 1])
    ensures forall k :: 0 <= k < i || j <= k < |s| ==> IsSpace(u, s[k])
  {
    i, j := TrimIs(Blank(u), s);
    forall k | 0 <= k < i || j <= k < |s| ensures IsSpace(u, s[k]) { assert Blank(u)(s[k]); }
  }

  // ---- `sep.join(parts)`

  function Glue(parts: seq<string>, sep: string): string {
    if parts == [] then ""
    else if |parts| == 1 then parts[0]
    else parts[0] + sep + Glue(parts[1..], sep)
  }

  /** Where part k begins. */
  function GluedAt(parts: seq<string>, sep: string, k: nat): nat
    requires k <= |parts|
  {
    if k == 0 then 0 else GluedAt(parts, sep, k - 1) + |parts[k - 1]| + |sep|
  }

  lemma {:induction false} GluedBehind(parts: seq<string>, sep: string, k: nat)
    requires 0 < k <= |parts|
    ensures GluedAt(parts, sep, k) == |parts[0]| + |sep| + GluedAt(parts[1..], sep, k - 1)
  {
    if k > 1 { GluedBehind(parts, sep, k - 1); }
  }

  lemma OccursBehind(front: string, s: string, part: string, i: int)
    requires OccursAt(s, part, i)
    ensures OccursAt(front + s, part, |front| + i)
  {
    assert (front + s)[|front| + i..|front| + i + |part|] == s[i..i + |part|];
  }

  lemma TwoOccur(a: string, b: string, c: string)
    ensures OccursAt(a + b + c, a, 0) && OccursAt(a + b + c, b, |a|) && |a + b| == |a| + |b|
  {
    assert a + b + c == a + (b + c);
    assert (b + c)[..|b|] == b && OccursAt(b + c, b, 0);
    OccursBehind(a, b + c, b, 0);
    assert (a + b + c)[0..|a|] == a;
  }

  /** Part k stands at `at`, and behind it the separator, or the end of the text. */
  ghost predicate StandsAt(t: string, parts: seq<string>, sep: string, k: nat, at: nat)
    requires k < |parts|
  {
    && OccursAt(t, parts[k], at)
    && (k + 1 < |parts| ==> OccursAt(t, sep, at + |parts[k]|))
    && (k + 1 == |parts| ==> at + |parts[k]| == |t|)
  }

  lemma StandsBehind(front: string, t: string, parts: seq<string>, sep: string, k: nat, at: nat)
    requires 0 < k < |parts| && StandsAt(t, parts[1..], sep, k - 1, at)
    ensures StandsAt(front + t, parts, sep, k, |front| + at)
  {
    OccursBehind(front, t, parts[k], at);
    if k + 1 < |parts| { OccursBehind(front, t, sep, at + |parts[k]|); }
  }

  /** The parts stand in the text one after the other with the separator between any two,
      and nothing else does. */
  lemma {:induction false} GlueHolds(parts: seq<string>, sep: string, k: nat)
    requires k < |parts|
    ensures StandsAt(Glue(parts, sep), parts, sep, k, GluedAt(parts, sep, k))
  {
    if k > 0 {
      GluedBehind(parts, sep, k);
      GlueHolds(parts[1..], sep, k - 1);
      StandsBehind(parts[0] + sep, Glue(parts[1..], sep), parts, sep, k, GluedAt(parts[1..], sep, k - 1));
    } else if |parts| > 1 {
      TwoOccur(parts[0], sep, Glue(parts[1..], sep));
    } else {
      assert parts[0][0..|parts[0]|] == parts[0];
    }
  }
}
