/** The parent links of the canvas, as a finite partial map, and what linking and
    removing do to the ancestor relation.  Nothing here assumes the links are
    acyclic unless it says so. */
module Hierarchy {
  import opened Basics

  type Id = string
  type Links = map<Id, Id>

  /** The `k`-th parent of `n`; a parent need not be a node itself. */
  function Up(m: Links, n: Id, k: nat): Option<Id>
    decreases k
  {
    if k == 0 then Some(n)
    else if n in m then Up(m, m[n], k - 1)
    else None
  }

  /** `a` is a proper ancestor of `n`: the transitive closure of the links. */
  ghost predicate Ancestor(m: Links, a: Id, n: Id) {
    exists k: nat :: k > 0 && Up(m, n, k) == Some(a)
  }

  ghost predicate Acyclic(m: Links) {
    forall n :: !Ancestor(m, n, n)
  }

  /** Linking `d` under `t` is harmless: `t` is neither `d` nor below it. */
  ghost predicate Guarded(m: Links, d: Id, t: Id) {
    t != d && !Ancestor(m, d, t)
  }

  /** `d` hangs under `t`, or becomes a root. */
  function Relink(m: Links, d: Id, t: Option<Id>): Links {
    if t.Some? then m[d := t.value] else m - {d}
  }

  /** `x` leaves and its children move to its parent, or become roots. */
  function Splice(m: Links, x: Id): Links {
    map n | n in m && n != x && (m[n] != x || x in m) :: if m[n] == x then m[x] else m[n]
  }

  lemma {:induction false} UpSplit(m: Links, n: Id, j: nat, k: nat)
    requires Up(m, n, j).Some?
    ensures Up(m, n, j + k) == Up(m, Up(m, n, j).value, k)
    decreases j
  {
    if j > 0 {
      UpSplit(m, m[n], j - 1, k);
    }
  }

  /** One unfolding of the transitive closure. */
  lemma AncestorStep(m: Links, a: Id, n: Id)
    ensures Ancestor(m, a, n) <==> n in m && (m[n] == a || Ancestor(m, a, m[n]))
  {
    if Ancestor(m, a, n) {
      var k: nat :| k > 0 && Up(m, n, k) == Some(a);
      assert Up(m, m[n], k - 1) == Some(a);
    }
    if n in m && m[n] == a {
      assert Up(m, n, 1) == Up(m, a, 0) == Some(a);
    }
    if n in m && Ancestor(m, a, m[n]) {
      var k: nat :| k > 0 && Up(m, m[n], k) == Some(a);
      assert Up(m, n, k + 1) == Some(a);
    }
  }

  lemma AncestorTransitive(m: Links, a: Id, b: Id, c: Id)
    requires Ancestor(m, a, b) && Ancestor(m, b, c)
    ensures Ancestor(m, a, c)
  {
    var j: nat :| j > 0 && Up(m, c, j) == Some(b);
    var k: nat :| k > 0 && Up(m, b, k) == Some(a);
    UpSplit(m, c, j, k);
    assert Up(m, c, j + k) == Some(a);
  }

  /** An ancestor is somebody's parent. */
  lemma {:induction false} AncestorHasChild(m: Links, a: Id, n: Id, k: nat)
    requires k > 0 && Up(m, n, k) == Some(a)
    ensures exists c :: c in m && m[c] == a
    decreases k
  {
    if k == 1 {
      assert m[n] == a;
    } else {
      AncestorHasChild(m, a, m[n], k - 1);
    }
  }

  // ---- linking one node under another

  /** A climb in the changed links either never meets `d`, so it is a climb in the old
      ones too, or it meets `d` a first time, and up to there both climbs agree. */
  lemma {:induction false} ClimbAfterLink(m: Links, d: Id, t: Id, n: Id, k: nat) returns (j: nat)
    ensures j <= k
    ensures Up(m, n, j) == Up(m[d := t], n, j)
    ensures j == k || Up(m, n, j) == Some(d)
    decreases k
  {
    if k == 0 || n == d {
      j := 0;
    } else if n in m {
      var i := ClimbAfterLink(m, d, t, m[n], k - 1);
      j := i + 1;
    } else {
      j := k;
    }
  }

  /** Nesting keeps the links acyclic exactly when the drag guard holds. */
  lemma LinkKeepsAcyclic(m: Links, d: Id, t: Id)
    requires Acyclic(m)
    ensures Acyclic(m[d := t]) <==> Guarded(m, d, t)
  {
    var m' := m[d := t];
    if !Guarded(m, d, t) {
      if t == d {
        assert Up(m', d, 1) == Some(d);
      } else {
        var k: nat :| k > 0 && Up(m, t, k) == Some(d);
        var j := ClimbAfterLink(m, d, t, t, k);
        assert Up(m', t, j) == Some(d);
        assert Up(m', d, j + 1) == Some(d);
      }
      assert Ancestor(m', d, d);
    }
    if !Acyclic(m') {
      var n :| Ancestor(m', n, n);
      var k: nat :| k > 0 && Up(m', n, k) == Some(n);
      var j := ClimbAfterLink(m, d, t, n, k);
      assert j < k by {
        if j == k { assert Ancestor(m, n, n); }
      }
      // The cycle passes through `d`, so climbing from `t` comes back to `d`.
      UpSplit(m', n, j, k - j);
      UpSplit(m', d, k - j, j);
      assert Up(m', t, k - 1) == Some(d);
      var i := ClimbAfterLink(m, d, t, t, k - 1);
      assert Up(m, t, i) == Some(d);
      if i > 0 {
        assert Ancestor(m, d, t);
      }
    }
  }

  /** Taking a link away creates no ancestor. */
  lemma {:induction false} UnlinkShrinks(m: Links, d: Id, n: Id, k: nat)
    requires Up(m - {d}, n, k).Some?
    ensures Up(m, n, k) == Up(m - {d}, n, k)
    decreases k
  {
    if k > 0 {
      UnlinkShrinks(m, d, (m - {d})[n], k - 1);
    }
  }

  lemma UnlinkKeepsAcyclic(m: Links, d: Id)
    requires Acyclic(m)
    ensures Acyclic(m - {d})
  {
    forall n ensures !Ancestor(m - {d}, n, n) {
      if Ancestor(m - {d}, n, n) {
        var k: nat :| k > 0 && Up(m - {d}, n, k) == Some(n);
        UnlinkShrinks(m, d, n, k);
        assert Ancestor(m, n, n);
      }
    }
  }

  /** `d` hung elsewhere gains no descendants. */
  lemma RelinkAddsNoDescendant(m: Links, d: Id, t: Option<Id>, n: Id)
    requires Ancestor(Relink(m, d, t), d, n)
    ensures n == d || Ancestor(m, d, n)
  {
    var k: nat :| k > 0 && Up(Relink(m, d, t), n, k) == Some(d);
    if t.Some? {
      var j := ClimbAfterLink(m, d, t.value, n, k);
      assert Up(m, n, j) == Some(d);
    } else {
      UnlinkShrinks(m, d, n, k);
    }
  }

  /** In an acyclic hierarchy the old parent of `d` stays a safe place to put `d` back
      while `d` hangs under another node, or under none. */
  lemma OldParentStaysGuarded(m: Links, d: Id, t: Option<Id>)
    requires Acyclic(m) && d in m
    ensures Guarded(Relink(m, d, t), d, m[d])
  {
    AncestorStep(m, d, d);
    if Ancestor(Relink(m, d, t), d, m[d]) {
      RelinkAddsNoDescendant(m, d, t, m[d]);
    }
  }

  // ---- removing a node

  lemma {:induction false} SpliceKeepsClimb(m: Links, x: Id, a: Id, n: Id, k: nat)
    requires a != x && n != x && k > 0 && Up(m, n, k) == Some(a)
    ensures Ancestor(Splice(m, x), a, n)
    decreases k
  {
    var s := Splice(m, x);
    AncestorStep(s, a, n);
    var p := m[n];
    if p != x {
      if k > 1 { SpliceKeepsClimb(m, x, a, p, k - 1); }
    } else {
      var q := m[x];
      assert Up(m, x, k - 1) == Up(m, q, k - 2);
      if q == x {
        SpliceKeepsClimb(m, x, a, n, k - 1);
      } else if k > 2 {
        SpliceKeepsClimb(m, x, a, q, k - 2);
      }
    }
  }

  lemma {:induction false} SpliceAddsNoClimb(m: Links, x: Id, a: Id, n: Id, k: nat)
    requires a != x && k > 0 && Up(Splice(m, x), n, k) == Some(a)
    ensures Ancestor(m, a, n)
    decreases k
  {
    var q := Splice(m, x)[n];
    if q != a {
      SpliceAddsNoClimb(m, x, a, q, k - 1);
    }
    AncestorStep(m, a, n);
    if m[n] == x {
      AncestorStep(m, a, x);
    }
  }

  /** Removing a node leaves the ancestor relation among the others as it was. */
  lemma SpliceKeepsAncestors(m: Links, x: Id, a: Id, n: Id)
    requires a != x && n != x
    ensures Ancestor(Splice(m, x), a, n) <==> Ancestor(m, a, n)
  {
    if Ancestor(m, a, n) {
      var k: nat :| k > 0 && Up(m, n, k) == Some(a);
      SpliceKeepsClimb(m, x, a, n, k);
    }
    if Ancestor(Splice(m, x), a, n) {
      var k: nat :| k > 0 && Up(Splice(m, x), n, k) == Some(a);
      SpliceAddsNoClimb(m, x, a, n, k);
    }
  }

  /** After a removal nothing is above or below the removed node. */
  lemma SpliceForgets(m: Links, x: Id, n: Id)
    requires Acyclic(m)
    ensures !Ancestor(Splice(m, x), x, n) && !Ancestor(Splice(m, x), n, x)
  {
    var s := Splice(m, x);
    AncestorStep(s, n, x);
    AncestorStep(m, x, x);
    if Ancestor(s, x, n) {
      var k: nat :| k > 0 && Up(s, n, k) == Some(x);
      AncestorHasChild(s, x, n, k);
    }
  }

  lemma SpliceKeepsAcyclic(m: Links, x: Id)
    requires Acyclic(m)
    ensures Acyclic(Splice(m, x))
  {
    forall n ensures !Ancestor(Splice(m, x), n, n) {
      if n == x { SpliceForgets(m, x, n); } else { SpliceKeepsAncestors(m, x, n, n); }
    }
  }

  /** A drag guard once true survives the removal of any node at all. */
  lemma SpliceKeepsGuard(m: Links, x: Id, d: Id, t: Id)
    requires Acyclic(m) && Guarded(m, d, t)
    ensures Guarded(Splice(m, x), d, t)
  {
    if x == d || x == t {
      SpliceForgets(m, x, d);
      SpliceForgets(m, x, t);
    } else {
      SpliceKeepsAncestors(m, x, d, t);
    }
  }

  // ---- walks that end

  /** Climbing from `n` in search of `a` comes to an end: at a root, at an id that is
      no node, or at `a`. */
  ghost predicate WalkEnds(m: Links, a: Id, n: Id) {
    exists k: nat :: Up(m, n, k).None? || (k > 0 && Up(m, n, k) == Some(a))
  }

  lemma {:induction false} UpStaysNone(m: Links, n: Id, j: nat, k: nat)
    requires Up(m, n, j).None? && j <= k
    ensures Up(m, n, k).None?
    decreases k
  {
    if n in m {
      UpStaysNone(m, m[n], j - 1, k - 1);
    }
  }

  /** In an acyclic hierarchy every climb leaves the nodes: it never meets one twice. */
  lemma {:induction false} ClimbOut(m: Links, n: Id, seen: set<Id>) returns (k: nat)
    requires Acyclic(m) && seen <= m.Keys
    requires forall v :: v in seen ==> Ancestor(m, n, v)
    ensures Up(m, n, k).None?
    decreases |m.Keys - seen|
  {
    if n !in m {
      k := 1;
    } else {
      assert n !in seen;
      forall v | v in seen + {n} ensures Ancestor(m, m[n], v) {
        AncestorStep(m, m[n], n);
        if v != n { AncestorTransitive(m, m[n], n, v); }
      }
      assert m.Keys - (seen + {n}) == (m.Keys - seen) - {n};
      var i := ClimbOut(m, m[n], seen + {n});
      k := i + 1;
    }
  }

  lemma AcyclicWalksEnd(m: Links, a: Id, n: Id)
    requires Acyclic(m)
    ensures WalkEnds(m, a, n)
  {
    var k := ClimbOut(m, n, {});
  }
}
