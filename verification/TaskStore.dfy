/** The store of delegations (workspace-template/builtin_tools/delegation.py): its eviction,
    and what writing to it changes. */
module TaskStore {
  import opened Basics

  type TaskId = string

  datatype Status = Pending | InProgress | Completed | Failed

  datatype Task = Task(id: TaskId, workspace: string, description: string, status: Status,
                       result: Option<string>, error: Option<string>)

  const MAX_DELEGATION_HISTORY := 100

  predicate Finished(t: Task) {
    t.status.Completed? || t.status.Failed?
  }

  // ---- the store: an insertion-ordered dictionary, as the list of its values

  ghost predicate DistinctIds(store: seq<Task>) {
    forall i, j :: 0 <= i < j < |store| ==> store[i].id != store[j].id
  }

  function Ids(store: seq<Task>): seq<TaskId> {
    seq(|store|, i requires 0 <= i < |store| => store[i].id)
  }

  function Lookup(store: seq<Task>, id: TaskId): Option<Task> {
    if store == [] then None
    else if store[0].id == id then Some(store[0])
    else Lookup(store[1..], id)
  }

  /** Writes the fields of the task with this id, if it is stored. */
  function Write(store: seq<Task>, id: TaskId, status: Status, result: Option<string>,
                 error: Option<string>): seq<Task> {
    seq(|store|, i requires 0 <= i < |store| =>
      if store[i].id == id then store[i].(status := status, result := result, error := error) else store[i])
  }

  function Unfinished(store: seq<Task>): nat {
    if store == [] then 0 else (if Finished(store[0]) then 0 else 1) + Unfinished(store[1..])
  }

  /** Without the first `k` finished tasks. */
  function DropFinished(store: seq<Task>, k: nat): seq<Task> {
    if store == [] || k == 0 then store
    else if Finished(store[0]) then DropFinished(store[1..], k - 1)
    else [store[0]] + DropFinished(store[1..], k)
  }

  /** What `_evict_old_delegations` leaves. */
  function Evicted(store: seq<Task>): seq<Task> {
    if |store| <= MAX_DELEGATION_HISTORY then store
    else DropFinished(store, |store| - MAX_DELEGATION_HISTORY)
  }

  function OnlyUnfinished(store: seq<Task>): seq<Task> {
    if store == [] then []
    else if Finished(store[0]) then OnlyUnfinished(store[1..])
    else [store[0]] + OnlyUnfinished(store[1..])
  }

  /** Eviction takes the oldest finished tasks: up to some age all of them go, and nothing
      younger does. */
  lemma {:induction false} DropsOldest(store: seq<Task>, k: nat) returns (age: nat)
    ensures age <= |store|
    ensures DropFinished(store, k) == OnlyUnfinished(store[..age]) + store[age..]
    ensures |DropFinished(store, k)| == if k <= |store| - Unfinished(store) then |store| - k else Unfinished(store)
    ensures Unfinished(DropFinished(store, k)) == Unfinished(store)
    decreases store
  {
    UnfinishedAtMost(store);
    if store == [] || k == 0 {
      age := 0;
      assert store[..0] == [] && store[0..] == store;
    } else {
      var a := DropsOldest(store[1..], if Finished(store[0]) then k - 1 else k);
      age := a + 1;
      assert store[..age][1..] == store[1..][..a] && store[age..] == store[1..][a..];
      assert OnlyUnfinished(store[..age]) ==
             (if Finished(store[0]) then [] else [store[0]]) + OnlyUnfinished(store[1..][..a]);
    }
  }

  lemma {:induction false} UnfinishedAtMost(store: seq<Task>)
    ensures Unfinished(store) <= |store|
  {
    if store != [] { UnfinishedAtMost(store[1..]); }
  }

  function Max(a: nat, b: nat): nat { if a < b then b else a }

  /** Up to 100 tasks all stay; of more, eviction leaves 100, or as many as are unfinished. */
  lemma EvictedSize(store: seq<Task>)
    ensures |Evicted(store)| ==
            if |store| <= MAX_DELEGATION_HISTORY then |store| else Max(MAX_DELEGATION_HISTORY, Unfinished(store))
    ensures Unfinished(Evicted(store)) == Unfinished(store)
  {
    if |store| > MAX_DELEGATION_HISTORY {
      var age := DropsOldest(store, |store| - MAX_DELEGATION_HISTORY);
    }
  }

  lemma {:induction false} OnlyUnfinishedHas(store: seq<Task>, t: Task)
    ensures t in OnlyUnfinished(store) <==> t in store && !Finished(t)
  {
    if store != [] { OnlyUnfinishedHas(store[1..], t); }
  }

  /** What goes is exactly the finished tasks up to some age. */
  lemma EvictsOldest(store: seq<Task>) returns (age: nat)
    requires DistinctIds(store)
    ensures age <= |store| && (|store| <= MAX_DELEGATION_HISTORY ==> age == 0)
    ensures forall i :: 0 <= i < |store| ==> (store[i] in Evicted(store) <==> i >= age || !Finished(store[i]))
  {
    age := 0;
    if |store| > MAX_DELEGATION_HISTORY {
      age := DropsOldest(store, |store| - MAX_DELEGATION_HISTORY);
      forall i | 0 <= i < |store| ensures store[i] in Evicted(store) <==> i >= age || !Finished(store[i]) {
        OnlyUnfinishedHas(store[..age], store[i]);
        if i < age { assert store[..age][i] == store[i]; } else { assert store[age..][i - age] == store[i]; }
      }
    }
  }

  /** Eviction keeps every unfinished task and adds nothing. */
  lemma {:induction false} DropKeeps(store: seq<Task>, k: nat)
    requires DistinctIds(store)
    ensures DistinctIds(DropFinished(store, k))
    ensures forall t :: t in DropFinished(store, k) ==> t in store
    ensures forall t :: t in store && !Finished(t) ==> t in DropFinished(store, k)
    decreases store
  {
    if store != [] && k > 0 {
      var rest := store[1..];
      assert store == [store[0]] + rest;
      DropKeeps(rest, if Finished(store[0]) then k - 1 else k);
      forall t | t in rest ensures t.id != store[0].id {}
    }
  }

  /** Eviction keeps the order: what is left is the old list restricted to some ids. */
  lemma {:induction false} DropKeepsOrder(store: seq<Task>, k: nat, kept: set<TaskId>)
    requires DistinctIds(store)
    requires forall t :: t in store ==> (t.id in kept <==> t in DropFinished(store, k))
    ensures Ids(DropFinished(store, k)) == Restrict(Ids(store), kept)
    decreases store
  {
    if store == [] || k == 0 {
      RestrictAll(Ids(store), kept);
    } else {
      var rest := store[1..];
      var k' := if Finished(store[0]) then k - 1 else k;
      KeptOfRest(store, k, kept);
      DropKeepsOrder(rest, k', kept);
      OrderOfFirst(store, k, kept);
    }
  }

  lemma KeptOfRest(store: seq<Task>, k: nat, kept: set<TaskId>)
    requires DistinctIds(store) && store != [] && k > 0
    requires forall t :: t in store ==> (t.id in kept <==> t in DropFinished(store, k))
    ensures DistinctIds(store[1..])
    ensures var k' := if Finished(store[0]) then k - 1 else k;
            forall t :: t in store[1..] ==> (t.id in kept <==> t in DropFinished(store[1..], k'))
    ensures store[0].id in kept <==> !Finished(store[0])
  {
    var rest := store[1..];
    var k' := if Finished(store[0]) then k - 1 else k;
    assert store[0] in store && store[0] !in rest;
    DropKeeps(rest, k');
    forall t | t in rest ensures t.id in kept <==> t in DropFinished(rest, k') { assert t in store; }
  }

  lemma OrderOfFirst(store: seq<Task>, k: nat, kept: set<TaskId>)
    requires store != [] && k > 0
    requires store[0].id in kept <==> !Finished(store[0])
    requires Ids(DropFinished(store[1..], if Finished(store[0]) then k - 1 else k)) == Restrict(Ids(store[1..]), kept)
    ensures Ids(DropFinished(store, k)) == Restrict(Ids(store), kept)
  {
    assert Ids(store)[1..] == Ids(store[1..]);
    if !Finished(store[0]) {
      assert Ids(DropFinished(store, k)) == [store[0].id] + Ids(DropFinished(store[1..], k));
    }
  }

  lemma {:induction false} RestrictAll(s: seq<TaskId>, keep: set<TaskId>)
    requires forall x :: x in s ==> x in keep
    ensures Restrict(s, keep) == s
  {
    if s != [] { RestrictAll(s[1..], keep); }
  }

  // ---- small facts about the store

  lemma {:induction false} LookupFinds(store: seq<Task>, id: TaskId)
    requires DistinctIds(store)
    ensures forall t :: t in store && t.id == id ==> Lookup(store, id) == Some(t)
    ensures Lookup(store, id).Some? ==> Lookup(store, id).value in store && Lookup(store, id).value.id == id
  {
    if store != [] { LookupFinds(store[1..], id); }
  }

  lemma {:induction false} WriteCount(store: seq<Task>, id: TaskId, status: Status, result: Option<string>,
                                      error: Option<string>)
    requires forall t :: t in store && t.id == id ==> !Finished(t)
    ensures Unfinished(Write(store, id, status, result, error)) <= Unfinished(store)
  {
    if store != [] {
      assert store[0] in store;
      assert Write(store, id, status, result, error)[1..] == Write(store[1..], id, status, result, error);
      WriteCount(store[1..], id, status, result, error);
    }
  }

  lemma WriteFacts(store: seq<Task>, id: TaskId, status: Status, result: Option<string>, error: Option<string>)
    requires DistinctIds(store)
    ensures var w := Write(store, id, status, result, error);
            && DistinctIds(w) && Ids(w) == Ids(store)
            && (set t | t in w :: t.id) == (set t | t in store :: t.id)
            && (forall o :: o != id ==> Lookup(w, o) == Lookup(store, o))
            && (Lookup(store, id).Some? ==>
                  Lookup(w, id) == Some(Lookup(store, id).value.(status := status, result := result, error := error)))
            && (forall t :: t in w && t.id != id ==> t in store)
            && (forall t :: t in w && t.id == id ==> t.status == status && t.result == result && t.error == error)
  {
    var w := Write(store, id, status, result, error);
    SameIdSet(store, w);
    forall o | o != id ensures Lookup(w, o) == Lookup(store, o) {
      LookupWrite(store, id, status, result, error, o);
    }
    LookupWrite(store, id, status, result, error, id);
  }

  lemma SameIdSet(a: seq<Task>, b: seq<Task>)
    requires |a| == |b| && forall i :: 0 <= i < |a| ==> a[i].id == b[i].id
    ensures (set t | t in a :: t.id) == (set t | t in b :: t.id)
  {
    var x, y := set t | t in a :: t.id, set t | t in b :: t.id;
    forall id ensures id in x <==> id in y {
      if id in x { var i :| 0 <= i < |a| && a[i].id == id; assert b[i] in b; }
      if id in y { var i :| 0 <= i < |b| && b[i].id == id; assert a[i] in a; }
    }
  }

  lemma {:induction false} LookupWrite(store: seq<Task>, id: TaskId, status: Status, result: Option<string>,
                                       error: Option<string>, o: TaskId)
    ensures var w := Write(store, id, status, result, error);
            Lookup(w, o) ==
            if o != id || Lookup(store, o).None? then Lookup(store, o)
            else Some(Lookup(store, o).value.(status := status, result := result, error := error))
  {
    if store != [] {
      assert Write(store, id, status, result, error)[1..] == Write(store[1..], id, status, result, error);
      LookupWrite(store[1..], id, status, result, error, o);
    }
  }

  lemma {:induction false} RestrictTwice(s: seq<TaskId>, a: set<TaskId>, b: set<TaskId>)
    requires b <= a
    ensures Restrict(Restrict(s, a), b) == Restrict(s, b)
  {
    if s != [] { RestrictTwice(s[1..], a, b); }
  }

  lemma {:induction false} RestrictIgnores(s: seq<TaskId>, keep: set<TaskId>, x: TaskId)
    requires x !in s
    ensures Restrict(s, keep + {x}) == Restrict(s, keep)
  {
    if s != [] { RestrictIgnores(s[1..], keep, x); }
  }

  lemma {:induction false} UnfinishedAppend(store: seq<Task>, t: Task)
    requires !Finished(t)
    ensures Unfinished(store + [t]) == Unfinished(store) + 1
  {
    if store == [] {
      assert store + [t] == [t];
    } else {
      assert (store + [t])[1..] == store[1..] + [t];
      UnfinishedAppend(store[1..], t);
    }
  }

  lemma IdsAreKept(store: seq<Task>, some: seq<Task>, ids: set<TaskId>)
    requires DistinctIds(store) && (forall t :: t in some ==> t in store) && ids == set t | t in some :: t.id
    ensures forall t :: t in store ==> (t.id in ids <==> t in some)
  {
    forall t | t in store ensures t.id in ids <==> t in some {
      if t.id in ids { var o :| o in some && o.id == t.id; assert o in store; }
    }
  }

  lemma EvictedFacts(store: seq<Task>)
    requires DistinctIds(store)
    ensures DistinctIds(Evicted(store))
    ensures forall t :: t in Evicted(store) ==> t in store
    ensures forall t :: t in store && !Finished(t) ==> t in Evicted(store)
    ensures var left := set t | t in Evicted(store) :: t.id;
            Ids(Evicted(store)) == Restrict(Ids(store), left)
  {
    var left := set t | t in Evicted(store) :: t.id;
    if |store| > MAX_DELEGATION_HISTORY {
      var k := |store| - MAX_DELEGATION_HISTORY;
      DropKeeps(store, k);
      IdsAreKept(store, DropFinished(store, k), left);
      DropKeepsOrder(store, k, left);
    } else {
      RestrictAll(Ids(store), left);
    }
  }

  // ---- the code that edits the store

  function FinishedIds(store: seq<Task>): seq<TaskId> {
    if store == [] then []
    else (if Finished(store[0]) then [store[0].id] else []) + FinishedIds(store[1..])
  }

  function Delete(store: seq<Task>, id: TaskId): seq<Task> {
    if store == [] then []
    else if store[0].id == id then store[1..]
    else [store[0]] + Delete(store[1..], id)
  }

  lemma {:induction false} FinishedIdsFacts(store: seq<Task>)
    ensures |FinishedIds(store)| == |store| - Unfinished(store)
    ensures forall id :: id in FinishedIds(store) ==> exists t :: t in store && t.id == id
  {
    if store != [] {
      FinishedIdsFacts(store[1..]);
      forall id | id in FinishedIds(store) ensures exists t :: t in store && t.id == id {
        if id in FinishedIds(store[1..]) {
          var t :| t in store[1..] && t.id == id;
          assert t in store;
        } else {
          assert store[0] in store;
        }
      }
    }
  }

  /** Deleting the next finished id drops one more finished task. */
  lemma {:induction false} DeleteNext(store: seq<Task>, k: nat)
    requires DistinctIds(store) && k < |FinishedIds(store)|
    ensures Delete(DropFinished(store, k), FinishedIds(store)[k]) == DropFinished(store, k + 1)
    decreases store
  {
    if Finished(store[0]) {
      DropNone(store[1..]);
      if k > 0 { DeleteNext(store[1..], k - 1); }
    } else {
      DeleteNext(store[1..], k);
      DeleteBehindUnfinished(store, k);
    }
  }

  lemma DeleteBehindUnfinished(store: seq<Task>, k: nat)
    requires DistinctIds(store) && store != [] && !Finished(store[0]) && k < |FinishedIds(store)|
    requires FinishedIds(store) == FinishedIds(store[1..])
    requires Delete(DropFinished(store[1..], k), FinishedIds(store[1..])[k]) == DropFinished(store[1..], k + 1)
    ensures Delete(DropFinished(store, k), FinishedIds(store)[k]) == DropFinished(store, k + 1)
  {
    var rest := store[1..];
    var id := FinishedIds(rest)[k];
    FinishedIdsFacts(rest);
    assert id in FinishedIds(rest);
    var t :| t in rest && t.id == id;
    assert store[0].id != id;
    DropNone(store);
    DropNone(rest);
  }

  lemma DropNone(store: seq<Task>)
    ensures DropFinished(store, 0) == store
  {
  }

  lemma {:induction false} DropTooMany(store: seq<Task>, k: nat)
    requires k >= |FinishedIds(store)|
    ensures DropFinished(store, k) == DropFinished(store, |FinishedIds(store)|)
    decreases store
  {
    if store != [] {
      if Finished(store[0]) {
        if k > 0 { DropTooMany(store[1..], k - 1); }
      } else {
        DropTooMany(store[1..], k);
        if |FinishedIds(store)| == 0 { DropNone(store[1..]); DropAllUnfinished(store, k); }
      }
    }
  }

  lemma {:induction false} DropAllUnfinished(store: seq<Task>, k: nat)
    requires |FinishedIds(store)| == 0
    ensures DropFinished(store, k) == store
    decreases store
  {
    if store != [] && k > 0 {
      DropAllUnfinished(store[1..], k);
    }
  }

  lemma FinishedIdsFrom(store: seq<Task>, i: nat, ids: seq<TaskId>)
    requires i < |store|
    ensures ids + FinishedIds(store[i..]) ==
            (if Finished(store[i]) then ids + [store[i].id] else ids) + FinishedIds(store[i + 1..])
  {
    assert store[i..][0] == store[i] && store[i..][1..] == store[i + 1..];
  }
}
