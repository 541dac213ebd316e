// Datatypes and sequence helpers shared by every component of the model.
module Basics {

  datatype Option<+T> = None | Some(value: T)

  /** The concatenation of a list of sequences. */
  function Flatten<T>(parts: seq<seq<T>>): seq<T> {
    if parts == [] then [] else parts[0] + Flatten(parts[1..])
  }

  lemma {:induction false} FlattenAppend<T>(a: seq<seq<T>>, b: seq<seq<T>>)
    ensures Flatten(a + b) == Flatten(a) + Flatten(b)
  {
    if a == [] {
      assert a + b == b;
    } else {
      assert (a + b)[1..] == a[1..] + b;
      FlattenAppend(a[1..], b);
    }
  }

  ghost predicate Distinct<T(!new)>(s: seq<T>) {
    forall i, j :: 0 <= i < j < |s| ==> s[i] != s[j]
  }

  /** The elements of `s` that lie in `keep`, in their order. */
  function Restrict<T>(s: seq<T>, keep: set<T>): seq<T> {
    if s == [] then []
    else if s[0] in keep then [s[0]] + Restrict(s[1..], keep)
    else Restrict(s[1..], keep)
  }

  lemma {:induction false} RestrictAppend<T>(a: seq<T>, b: seq<T>, keep: set<T>)
    ensures Restrict(a + b, keep) == Restrict(a, keep) + Restrict(b, keep)
  {
    if a == [] {
      assert a + b == b;
    } else {
      assert (a + b)[1..] == a[1..] + b;
      RestrictAppend(a[1..], b, keep);
    }
  }

  // ---- what a filter takes, place by place

  ghost predicate Increasing(at: seq<nat>) {
    forall i, j :: 0 <= i < j < |at| ==> at[i] < at[j]
  }

  /** `f` of the elements that `keep` admits, in their order. */
  function FilterMap<T, U>(s: seq<T>, keep: T -> bool, f: T -> U): seq<U> {
    if s == [] then []
    else (if keep(s[0]) then [f(s[0])] else []) + FilterMap(s[1..], keep, f)
  }

  /** `picked` is `f` of what stands in `s` at these places, which increase and are those of
      all elements that `keep` admits. */
  ghost predicate Picks<T, U>(s: seq<T>, keep: T -> bool, f: T -> U, at: seq<nat>, picked: seq<U>) {
    Increasing(at) && AreAt(s, f, at, picked) && AreAll(s, keep, at)
  }

  ghost predicate AreAt<T, U>(s: seq<T>, f: T -> U, at: seq<nat>, picked: seq<U>) {
    |at| == |picked| && forall k :: 0 <= k < |at| ==> at[k] < |s| && picked[k] == f(s[at[k]])
  }

  ghost predicate AreAll<T>(s: seq<T>, keep: T -> bool, at: seq<nat>) {
    forall i: nat :: i in at <==> i < |s| && keep(s[i])
  }

  lemma {:induction false} FilterMapPicks<T, U>(s: seq<T>, keep: T -> bool, f: T -> U) returns (at: seq<nat>)
    ensures Picks(s, keep, f, at, FilterMap(s, keep, f))
  {
    at := [];
    if s != [] {
      var rest := FilterMapPicks(s[1..], keep, f);
      AreAtBehind(s, f, rest, FilterMap(s[1..], keep, f));
      AreAllBehind(s, keep, rest);
      IncreasingBehind(rest);
      at := if keep(s[0]) then [0] + Shifted(rest, 1) else Shifted(rest, 1);
    }
  }

  /** The same places in a list with `n` elements more in front. */
  function Shifted(at: seq<nat>, n: nat): seq<nat> {
    seq(|at|, k requires 0 <= k < |at| => at[k] + n)
  }

  lemma AreAtBehind<T, U>(s: seq<T>, f: T -> U, rest: seq<nat>, picked: seq<U>)
    requires s != [] && AreAt(s[1..], f, rest, picked)
    ensures AreAt(s, f, Shifted(rest, 1), picked) && AreAt(s, f, [0] + Shifted(rest, 1), [f(s[0])] + picked)
  {
    var later := Shifted(rest, 1);
    forall k | 0 <= k < |rest| ensures later[k] < |s| && picked[k] == f(s[later[k]]) {
      assert s[1..][rest[k]] == s[later[k]];
    }
  }

  lemma AreAllBehind<T>(s: seq<T>, keep: T -> bool, rest: seq<nat>)
    requires s != [] && AreAll(s[1..], keep, rest)
    ensures AreAll(s, keep, if keep(s[0]) then [0] + Shifted(rest, 1) else Shifted(rest, 1))
  {
    var at := if keep(s[0]) then [0] + Shifted(rest, 1) else Shifted(rest, 1);
    forall i: nat ensures i in at <==> i < |s| && keep(s[i]) {
      ShiftedHas(rest, 1, i);
      if 0 < i < |s| { assert s[1..][i - 1] == s[i]; }
    }
  }

  lemma IncreasingBehind(rest: seq<nat>)
    requires Increasing(rest)
    ensures Increasing(Shifted(rest, 1)) && Increasing([0] + Shifted(rest, 1))
  {
  }

  lemma ShiftedHas(at: seq<nat>, n: nat, i: nat)
    ensures i in Shifted(at, n) <==> i >= n && i - n in at
  {
    if i >= n && i - n in at {
      var k :| 0 <= k < |at| && at[k] == i - n;
      assert Shifted(at, n)[k] == i;
    }
  }
}
