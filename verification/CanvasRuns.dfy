/** Whole runs of the canvas: what every action keeps, and what a failed nest leaves. */
module CanvasRuns {
  import opened Basics
  import opened Hierarchy
  import opened Canvas

  // ---- the forest survives every single action

  /** A nest keeps the forest exactly when it is an extraction, moves a node that is not
      there, or passes the drag guard. */
  lemma NestKeepsForest(nodes: seq<Node>, d: Id, t: Option<Id>)
    requires Forest(nodes)
    ensures Forest(SetParent(nodes, d, t)) <==>
            t.None? || d !in Ids(nodes) || Guarded(LinksOf(nodes), d, t.value)
  {
    LinksOfSetParent(nodes, d, t);
    if t.Some? { LinkKeepsAcyclic(LinksOf(nodes), d, t.value); } else { UnlinkKeepsAcyclic(LinksOf(nodes), d); }
    var b := SetParent(nodes, d, t);
    forall n | n in b ensures n.hidden <==> n.data.parentId.Some? {
      var i :| 0 <= i < |b| && b[i] == n;
      assert nodes[i] in nodes;
    }
  }

  lemma {:induction false} WithoutKeeps(nodes: seq<Node>, x: Id)
    ensures forall n :: n in Without(nodes, x) <==> n in nodes && n.id != x
    ensures UniqueIds(nodes) ==> UniqueIds(Without(nodes, x))
  {
    if nodes != [] {
      WithoutKeeps(nodes[1..], x);
      var rest := Without(nodes[1..], x);
      assert nodes == [nodes[0]] + nodes[1..];
      assert Without(nodes, x) == if nodes[0].id == x then rest else [nodes[0]] + rest;
      if UniqueIds(nodes) {
        forall j | 0 <= j < |rest| ensures rest[j].id != nodes[0].id {
          assert rest[j] in nodes[1..];
        }
      }
    }
  }

  lemma RemovalKeepsForest(c: State, x: Id)
    requires Forest(c.nodes)
    ensures Forest(RemoveNode(c, x).nodes)
  {
    LinksOfRemoved(c, x);
    SpliceKeepsAcyclic(LinksOf(c.nodes), x);
    WithoutKeeps(c.nodes, x);
    var b := RemoveNode(c, x).nodes;
    forall n | n in b ensures n.hidden <==> n.data.parentId.Some? {
      var i :| 0 <= i < |b| && b[i] == n;
      assert Without(c.nodes, x)[i] in c.nodes;
    }
  }

  /** Deleting a workspace changes nobody else's team: among the others, who is above
      whom stays as it was. */
  lemma RemovalKeepsTeams(c: State, x: Id, a: Id, n: Id)
    requires a != x && n != x
    ensures Ancestor(LinksOf(RemoveNode(c, x).nodes), a, n) <==> Ancestor(LinksOf(c.nodes), a, n)
  {
    LinksOfRemoved(c, x);
    SpliceKeepsAncestors(LinksOf(c.nodes), x, a, n);
  }

  lemma EventKeepsForest(c: State, ws: Id, e: Event)
    requires Forest(c.nodes)
    ensures Forest(HandleEvent(c, ws, e).nodes)
  {
    var b := PatchNode(c.nodes, ws, e);
    LinksOfPatched(c.nodes, ws, e);
    forall n | n in b ensures n.hidden <==> n.data.parentId.Some? {
      var i :| 0 <= i < |b| && b[i] == n;
      assert c.nodes[i] in c.nodes;
    }
    if e.Removed? { RemovalKeepsForest(c, ws); }
    if e.Provisioning? && ws !in Ids(c.nodes) { ArrivalKeepsForest(c, ws, e); }
  }

  lemma ArrivalKeepsForest(c: State, ws: Id, e: Event)
    requires Forest(c.nodes) && e.Provisioning? && ws !in Ids(c.nodes)
    ensures Forest(HandleEvent(c, ws, e).nodes)
  {
    LinksOfArrival(c.nodes, NewNode(ws, |c.nodes| * 40, e.name, e.tier));
    forall i | 0 <= i < |c.nodes| ensures c.nodes[i].id != ws { assert c.nodes[i] in c.nodes; }
  }

  /** A data-only event moves nothing: ids, positions, visibility and parents all stay,
      and only the named node's data can change. */
  lemma DataEventMovesNothing(c: State, ws: Id, e: Event)
    requires !e.Removed? && (e.Provisioning? ==> ws in Ids(c.nodes))
    ensures var b := HandleEvent(c, ws, e).nodes;
            && |b| == |c.nodes|
            && forall i :: 0 <= i < |b| ==>
                 && b[i] == c.nodes[i].(data := b[i].data)
                 && b[i].data.parentId == c.nodes[i].data.parentId
                 && (b[i].data != c.nodes[i].data ==> b[i].id == ws)
  {
  }

  // ---- steps that may land while a nest waits for its request

  datatype Step =
    | Ws(ws: Id, event: Event)
    | Delete(id: Id)
    | Consume(ws: Id)
    | Select(node: Option<Id>)

  function DoStep(c: State, s: Step): State {
    match s
    case Ws(ws, e) => HandleEvent(c, ws, e)
    case Delete(id) => RemoveNode(c, id)
    case Consume(ws) => if MessagesFor(c, ws) == [] then c else c.(messages := c.messages - {ws})
    case Select(n) => c.(selected := n)
  }

  function DoSteps(c: State, steps: seq<Step>): State
    decreases steps
  {
    if steps == [] then c else DoSteps(DoStep(c, steps[0]), steps[1..])
  }

  /** The node a step removes, if it removes one. */
  function Gone(s: Step): Option<Id> {
    match s
    case Ws(ws, Removed) => Some(ws)
    case Delete(id) => Some(id)
    case _ => None
  }

  lemma StepLinks(c: State, s: Step)
    ensures LinksOf(DoStep(c, s).nodes) ==
            if Gone(s).Some? then Splice(LinksOf(c.nodes), Gone(s).value) else LinksOf(c.nodes)
    ensures forall id :: id in Ids(c.nodes) && Gone(s) != Some(id) ==> id in Ids(DoStep(c, s).nodes)
  {
    if Gone(s).Some? {
      LinksOfRemoved(c, Gone(s).value);
    } else if s.Ws? {
      LinksOfPatched(c.nodes, s.ws, s.event);
      if s.event.Provisioning? && s.ws !in Ids(c.nodes) {
        LinksOfArrival(c.nodes, NewNode(s.ws, |c.nodes| * 40, s.event.name, s.event.tier));
      }
    }
  }

  lemma StepKeepsForest(c: State, s: Step)
    requires Forest(c.nodes)
    ensures Forest(DoStep(c, s).nodes)
    ensures c.edges == [] ==> DoStep(c, s).edges == []
  {
    match s
    case Ws(ws, e) => EventKeepsForest(c, ws, e);
    case Delete(id) => RemovalKeepsForest(c, id);
    case _ =>
  }

  /** No step can spoil a guard: a target that was safe to nest under stays safe. */
  lemma StepKeepsGuard(c: State, s: Step, d: Id, t: Id)
    requires Forest(c.nodes) && Guarded(LinksOf(c.nodes), d, t)
    ensures Guarded(LinksOf(DoStep(c, s).nodes), d, t)
  {
    StepLinks(c, s);
    if Gone(s).Some? {
      SpliceKeepsGuard(LinksOf(c.nodes), Gone(s).value, d, t);
    }
  }

  /** A drag guard true at drag time is still true when the dialog is confirmed, and the
      target is still a node unless it was itself removed. */
  lemma {:induction false} StepsKeepGuard(c: State, steps: seq<Step>, d: Id, t: Id)
    requires Forest(c.nodes) && Guarded(LinksOf(c.nodes), d, t)
    ensures Forest(DoSteps(c, steps).nodes) && Guarded(LinksOf(DoSteps(c, steps).nodes), d, t)
    ensures t in Ids(c.nodes) && (forall s :: s in steps ==> Gone(s) != Some(t)) ==>
            t in Ids(DoSteps(c, steps).nodes)
    decreases steps
  {
    if steps != [] {
      StepKeepsForest(c, steps[0]);
      StepKeepsGuard(c, steps[0], d, t);
      StepLinks(c, steps[0]);
      StepsKeepGuard(DoStep(c, steps[0]), steps[1..], d, t);
    }
  }

  // ---- a failed nest

  lemma {:induction false} WithoutSetParent(nodes: seq<Node>, x: Id, d: Id, p: Option<Id>)
    requires x != d
    ensures Without(SetParent(nodes, d, p), x) == SetParent(Without(nodes, x), d, p)
  {
    if nodes != [] {
      assert SetParent(nodes, d, p)[1..] == SetParent(nodes[1..], d, p);
      WithoutSetParent(nodes[1..], x, d, p);
    }
  }

  lemma RemovalCommutes(c: State, x: Id, d: Id, p: Option<Id>)
    requires x != d && p != Some(x)
    ensures RemoveNode(c.(nodes := SetParent(c.nodes, d, p)), x) ==
            RemoveNode(c, x).(nodes := SetParent(RemoveNode(c, x).nodes, d, p))
  {
    var b := SetParent(c.nodes, d, p);
    WithoutSetParent(c.nodes, x, d, p);
    var i := FindMapped(c.nodes, b, x);
    FindFirst(c.nodes, x);
    assert ParentOf(b, x) == ParentOf(c.nodes, x);
    assert RemoveNode(c.(nodes := b), x).nodes == SetParent(RemoveNode(c, x).nodes, d, p);
  }

  lemma ArrivalCommutes(nodes: seq<Node>, n: Node, d: Id, p: Option<Id>)
    requires n.data.parentId.None? && !n.hidden && (n.id == d ==> p.None?)
    ensures SetParent(nodes, d, p) + [n] == SetParent(nodes + [n], d, p)
  {
  }

  lemma PatchCommutes(nodes: seq<Node>, ws: Id, e: Event, d: Id, p: Option<Id>)
    ensures PatchNode(SetParent(nodes, d, p), ws, e) == SetParent(PatchNode(nodes, ws, e), d, p)
  {
  }

  /** Putting the old parent back commutes with any step that removes neither the moved
      node nor that parent. */
  lemma RevertCommutes(c: State, s: Step, d: Id, p: Option<Id>)
    requires Gone(s) != Some(d) && (p.Some? ==> Gone(s) != p && d in Ids(c.nodes))
    ensures var c' := c.(nodes := SetParent(c.nodes, d, p));
            DoStep(c', s) == DoStep(c, s).(nodes := SetParent(DoStep(c, s).nodes, d, p))
  {
    LinksOfSetParent(c.nodes, d, p);
    match s
    case Ws(ws, Removed) => RemovalCommutes(c, ws, d, p);
    case Ws(ws, Provisioning(name, tier)) =>
      if ws in Ids(c.nodes) {
        PatchCommutes(c.nodes, ws, s.event, d, p);
      } else {
        ArrivalCommutes(c.nodes, NewNode(ws, |c.nodes| * 40, name, tier), d, p);
      }
    case Ws(ws, e) => PatchCommutes(c.nodes, ws, e, d, p);
    case Delete(id) => RemovalCommutes(c, id, d, p);
    case _ =>
  }

  /** Steps that leave both the moved node and its old parent alone. */
  ghost predicate Spares(steps: seq<Step>, d: Id, p: Option<Id>) {
    forall s :: s in steps ==> Gone(s) != Some(d) && (p.Some? ==> Gone(s) != p)
  }

  lemma {:induction false} RevertCommutesWithSteps(c: State, steps: seq<Step>, d: Id, p: Option<Id>)
    requires Spares(steps, d, p) && (p.Some? ==> d in Ids(c.nodes))
    ensures DoSteps(c.(nodes := SetParent(c.nodes, d, p)), steps) ==
            DoSteps(c, steps).(nodes := SetParent(DoSteps(c, steps).nodes, d, p))
    decreases steps
  {
    if steps != [] {
      assert steps[0] in steps;
      RevertCommutes(c, steps[0], d, p);
      StepLinks(c, steps[0]);
      RevertCommutesWithSteps(DoStep(c, steps[0]), steps[1..], d, p);
    }
  }

  /** Nesting and then putting the old parent back restores the list itself. */
  lemma NestThenRevert(nodes: seq<Node>, d: Id, t: Option<Id>)
    requires UniqueIds(nodes) && HiddenIffChild(nodes)
    ensures SetParent(SetParent(nodes, d, t), d, ParentOf(nodes, d)) == nodes
  {
    forall i | 0 <= i < |nodes| && nodes[i].id == d
      ensures Reparented(nodes[i], ParentOf(nodes, d)) == nodes[i]
    {
      FindUnique(nodes, nodes[i]);
      assert nodes[i] in nodes;
    }
  }

  lemma {:induction false} EdgesDoNotMatter(c: State, es: seq<Edge>, steps: seq<Step>)
    ensures DoSteps(c.(edges := es), steps) == DoSteps(c, steps).(edges := DoSteps(c.(edges := es), steps).edges)
    ensures es == [] ==> DoSteps(c.(edges := es), steps).edges == []
    decreases steps
  {
    if steps != [] {
      var s := steps[0];
      var next := DoStep(c.(edges := es), s);
      assert next == DoStep(c, s).(edges := next.edges);
      assert es == [] ==> next.edges == [];
      EdgesDoNotMatter(DoStep(c, s), next.edges, steps[1..]);
    }
  }

  /** A failed nest is as if never attempted: whatever spared steps land between the
      optimistic update and the revert, the outcome is the state those steps alone
      produce, node for node, with every interleaved data update kept. */
  lemma FailedNestLeavesNoTrace(c: State, d: Id, t: Option<Id>, steps: seq<Step>)
    requires UniqueIds(c.nodes) && HiddenIffChild(c.nodes)
    requires Spares(steps, d, ParentOf(c.nodes, d))
    ensures Revert(DoSteps(Nest(c, d, t), steps), PendingNest(c, d)) == DoSteps(c, steps).(edges := c.edges)
    ensures c.edges == [] ==>
            Revert(DoSteps(Nest(c, d, t), steps), PendingNest(c, d)) == DoSteps(c, steps)
  {
    var p := ParentOf(c.nodes, d);
    var o := Nest(c, d, t);
    FindFirst(c.nodes, d);
    LinksOfSetParent(c.nodes, d, t);
    NestThenRevert(c.nodes, d, t);
    RevertCommutesWithSteps(o, steps, d, p);
    assert o.(nodes := SetParent(o.nodes, d, p)) == c.(edges := o.edges);
    EdgesDoNotMatter(c, o.edges, steps);
    EdgesDoNotMatter(c, c.edges, steps);
  }

  lemma NoChildNoAdoption(nodes: seq<Node>, d: Id, p: Option<Id>)
    requires forall n :: n in nodes ==> n.data.parentId != Some(d)
    ensures Adopt(Without(nodes, d), d, p) == Without(nodes, d)
  {
    WithoutKeeps(nodes, d);
    var w := Without(nodes, d);
    forall i | 0 <= i < |w| ensures w[i].data.parentId != Some(d) { assert w[i] in w; }
  }

  lemma {:induction false} WithoutIgnoresParent(nodes: seq<Node>, d: Id, t: Option<Id>)
    ensures Without(SetParent(nodes, d, t), d) == Without(nodes, d)
  {
    if nodes != [] {
      assert SetParent(nodes, d, t)[1..] == SetParent(nodes[1..], d, t);
      WithoutIgnoresParent(nodes[1..], d, t);
    }
  }

  lemma SetParentOfAbsent(nodes: seq<Node>, d: Id, t: Option<Id>)
    requires d !in Ids(nodes)
    ensures SetParent(nodes, d, t) == nodes
  {
    forall i | 0 <= i < |nodes| ensures nodes[i].id != d { assert nodes[i] in nodes; }
  }

  /** The links left by a removal inside the window of a failed nest, by formula. */
  lemma WindowLinks(c: State, d: Id, t: Option<Id>, x: Id)
    requires d in Ids(c.nodes)
    ensures var m := LinksOf(c.nodes);
            var after := Splice(Relink(m, d, t), x);
            LinksOf(Revert(RemoveNode(Nest(c, d, t), x), PendingNest(c, d)).nodes) ==
            if x == d then after else Relink(after, d, ParentOf(c.nodes, d))
  {
    var o := Nest(c, d, t);
    LinksOfSetParent(c.nodes, d, t);
    LinksOfRemoved(o, x);
    LinksOfSetParent(RemoveNode(o, x).nodes, d, ParentOf(c.nodes, d));
  }

  /** The premise is exact for a single removal landing in the window: the failed nest
      leaves a trace exactly when the old parent goes, or the moved node goes while it
      has children (they move to the new parent instead of the old one). */
  lemma RemovalInTheWindow(c: State, d: Id, t: Option<Id>, x: Id)
    requires Forest(c.nodes) && ParentOf(c.nodes, d) != t && d in Ids(c.nodes)
    ensures Revert(RemoveNode(Nest(c, d, t), x), PendingNest(c, d)).nodes == RemoveNode(c, x).nodes <==>
            && ParentOf(c.nodes, d) != Some(x)
            && (x == d ==> forall n :: n in c.nodes ==> n.data.parentId != Some(d))
  {
    var p := ParentOf(c.nodes, d);
    var childless := forall n :: n in c.nodes ==> n.data.parentId != Some(d);
    if p == Some(x) || (x == d && !childless) {
      RemovalLeavesTrace(c, d, t, x);
    } else if x == d {
      NoChildNoAdoption(c.nodes, d, p);
      var o := Nest(c, d, t);
      WithoutIgnoresParent(c.nodes, d, t);
      LinksOfRemoved(c, d);
      SetParentOfAbsent(Without(c.nodes, d), d, p);
      forall n | n in o.nodes ensures n.id == d || n.data.parentId != Some(d) {}
      assert Adopt(Without(o.nodes, d), d, ParentOf(o.nodes, d)) == Without(o.nodes, d) by {
        NoChildNoAdoption(c.nodes, d, ParentOf(o.nodes, d));
      }
    } else {
      assert DoSteps(c, [Delete(x)]) == RemoveNode(c, x);
      assert DoSteps(Nest(c, d, t), [Delete(x)]) == RemoveNode(Nest(c, d, t), x);
      FailedNestLeavesNoTrace(c, d, t, [Delete(x)]);
    }
  }

  /** Nobody's parent is `p`. */
  ghost predicate Childless(nodes: seq<Node>, p: Id) {
    forall id :: ParentOf(nodes, id) != Some(p)
  }

  /** A removal leaves nobody under the removed node, and no step puts anybody there. */
  lemma StepStaysChildless(c: State, s: Step, p: Id)
    requires Gone(s) == Some(p) || Childless(c.nodes, p)
    requires Forest(c.nodes)
    ensures Childless(DoStep(c, s).nodes, p)
  {
    StepLinks(c, s);
    AncestorStep(LinksOf(c.nodes), p, p);
    forall id ensures ParentOf(DoStep(c, s).nodes, id) != Some(p) {
      LinksAt(DoStep(c, s).nodes, id);
      if id in LinksOf(c.nodes) {
        LinksAt(c.nodes, id);
        LinksAt(c.nodes, LinksOf(c.nodes)[id]);
      }
    }
  }

  lemma {:induction false} StepsStayChildless(c: State, steps: seq<Step>, p: Id)
    requires Forest(c.nodes) && (Childless(c.nodes, p) || exists s :: s in steps && Gone(s) == Some(p))
    ensures Childless(DoSteps(c, steps).nodes, p)
    decreases steps
  {
    if steps != [] {
      StepKeepsForest(c, steps[0]);
      if Gone(steps[0]) == Some(p) || Childless(c.nodes, p) {
        StepStaysChildless(c, steps[0], p);
      } else {
        assert steps == [steps[0]] + steps[1..];
      }
      StepsStayChildless(DoStep(c, steps[0]), steps[1..], p);
    }
  }

  lemma {:induction false} StepsKeepNode(c: State, steps: seq<Step>, d: Id)
    requires d in Ids(c.nodes) && forall s :: s in steps ==> Gone(s) != Some(d)
    ensures d in Ids(DoSteps(c, steps).nodes)
    decreases steps
  {
    if steps != [] {
      StepLinks(c, steps[0]);
      StepsKeepNode(DoStep(c, steps[0]), steps[1..], d);
    }
  }

  /** For any steps in the window that leave the moved node in place: the failed nest leaves
      no trace exactly if none of them removes the old parent. */
  lemma NoTraceIff(c: State, d: Id, t: Option<Id>, steps: seq<Step>)
    requires Forest(c.nodes) && d in Ids(c.nodes) && forall s :: s in steps ==> Gone(s) != Some(d)
    ensures Revert(DoSteps(Nest(c, d, t), steps), PendingNest(c, d)).nodes == DoSteps(c, steps).nodes <==>
            forall s :: s in steps && Gone(s).Some? ==> Gone(s) != ParentOf(c.nodes, d)
  {
    var p := ParentOf(c.nodes, d);
    if forall s :: s in steps && Gone(s).Some? ==> Gone(s) != p {
      FailedNestLeavesNoTrace(c, d, t, steps);
    } else {
      var o := Nest(c, d, t);
      LinksOfSetParent(c.nodes, d, t);
      StepsKeepNode(o, steps, d);
      StepsStayChildless(c, steps, p.value);
      ParentAfterSet(DoSteps(o, steps).nodes, d, p, d);
    }
  }

  lemma RemovalLeavesTrace(c: State, d: Id, t: Option<Id>, x: Id)
    requires Forest(c.nodes) && ParentOf(c.nodes, d) != t && d in Ids(c.nodes)
    requires ParentOf(c.nodes, d) == Some(x) || (x == d && exists n :: n in c.nodes && n.data.parentId == Some(d))
    ensures Revert(RemoveNode(Nest(c, d, t), x), PendingNest(c, d)).nodes != RemoveNode(c, x).nodes
  {
    var m := LinksOf(c.nodes);
    WindowLinks(c, d, t, x);
    LinksOfRemoved(c, x);
    LinksAt(c.nodes, d);
    AncestorStep(m, d, d);
    AncestorStep(m, x, x);
    var left := LinksOf(Revert(RemoveNode(Nest(c, d, t), x), PendingNest(c, d)).nodes);
    var right := Splice(m, x);
    if ParentOf(c.nodes, d) == Some(x) {
      assert d in left && left[d] == x;
      assert d in right ==> right[d] == m[x];
    } else {
      var n :| n in c.nodes && n.data.parentId == Some(d);
      FindUnique(c.nodes, n);
      LinksAt(c.nodes, n.id);
      assert n.id in m && m[n.id] == d && n.id != d;
      assert t == if n.id in left then Some(left[n.id]) else None;
      assert ParentOf(c.nodes, d) == if n.id in right then Some(right[n.id]) else None;
    }
  }

  // ---- whole runs

  datatype Phase =
    | Idle
    | Dragging(d: Id, over: Option<Id>)
    | Confirming(d: Id, target: Option<Id>)
    | InFlight(pending: Pending)

  datatype World = World(canvas: State, phase: Phase)

  datatype Act =
    | Background(step: Step)
    | Hover(d: Id, over: Option<Id>)
    | Drop
    | Confirm
    | Cancel
    | Extract(d: Id)
    | PatchOk
    | PatchFailed
    | Load(rows: seq<Workspace>)

  /** The target a drag may light up. */
  ghost predicate MayHover(nodes: seq<Node>, d: Id, t: Id) {
    t in Ids(nodes) && t != d && !Ancestor(LinksOf(nodes), d, t)
  }

  /** One nest at a time: a drag or an extraction starts only when none is under way.  A
      snapshot that is a forest may be loaded except while a nest is in flight, and while a
      drag or dialog is open only if its guard holds in the snapshot too. */
  ghost predicate Enabled(w: World, a: Act) {
    match a
    case Background(_) => true
    case Hover(d, over) =>
      && (w.phase.Idle? || (w.phase.Dragging? && w.phase.d == d))
      && (over.Some? ==> MayHover(w.canvas.nodes, d, over.value))
    case Drop => w.phase.Dragging?
    case Confirm => w.phase.Confirming?
    case Cancel => w.phase.Confirming?
    case Extract(_) => w.phase.Idle?
    case PatchOk => w.phase.InFlight?
    case PatchFailed => w.phase.InFlight?
    case Load(rows) => MayLoad(w.phase, Hydrated(w.canvas, rows).nodes)
  }

  ghost predicate MayLoad(phase: Phase, nodes: seq<Node>) {
    && Forest(nodes)
    && match phase
       case Idle => true
       case Dragging(d, over) => Safe(LinksOf(nodes), d, over)
       case Confirming(d, t) => Safe(LinksOf(nodes), d, t)
       case InFlight(_) => false
  }

  /** `nestNode` up to its request; it does nothing when the parent is the target already. */
  function StartNest(c: State, d: Id, t: Option<Id>): World {
    if ParentOf(c.nodes, d) == t then World(c, Idle)
    else World(Nest(c, d, t), InFlight(PendingNest(c, d)))
  }

  ghost function Do(w: World, a: Act): World
    requires Enabled(w, a)
  {
    match a
    case Background(s) => w.(canvas := DoStep(w.canvas, s))
    case Hover(d, over) => w.(phase := Dragging(d, over))
    case Drop =>
      if w.phase.over.Some? then w.(phase := Confirming(w.phase.d, w.phase.over))
      else if ParentOf(w.canvas.nodes, w.phase.d).Some? then w.(phase := Confirming(w.phase.d, None))
      else w.(phase := Idle)
    case Confirm => StartNest(w.canvas, w.phase.d, w.phase.target)
    case Cancel => w.(phase := Idle)
    case Extract(d) => StartNest(w.canvas, d, None)
    case PatchOk => w.(phase := Idle)
    case PatchFailed => World(Revert(w.canvas, w.phase.pending), Idle)
    case Load(rows) => w.(canvas := Hydrated(w.canvas, rows))
  }

  ghost predicate Safe(m: Links, d: Id, t: Option<Id>) {
    t.Some? ==> Guarded(m, d, t.value)
  }

  /** What holds in every reachable world.  The guard of an open drag or dialog still
      holds, and so does the guard of the way back for a nest in flight. */
  ghost predicate Inv(w: World) {
    var m := LinksOf(w.canvas.nodes);
    && Forest(w.canvas.nodes)
    && w.canvas.edges == []
    && match w.phase
       case Idle => true
       case Dragging(d, over) => Safe(m, d, over)
       case Confirming(d, t) => Safe(m, d, t)
       case InFlight(p) => p.edges == [] && Safe(m, p.dragged, p.oldParent)
  }

  lemma StartNestKeepsInv(c: State, d: Id, t: Option<Id>)
    requires Forest(c.nodes) && c.edges == [] && Safe(LinksOf(c.nodes), d, t)
    ensures Inv(StartNest(c, d, t))
  {
    NestKeepsForest(c.nodes, d, t);
    LinksOfSetParent(c.nodes, d, t);
    LinksAt(c.nodes, d);
    FindFirst(c.nodes, d);
    if d in LinksOf(c.nodes) {
      OldParentStaysGuarded(LinksOf(c.nodes), d, t);
    }
  }

  lemma ActKeepsInv(w: World, a: Act)
    requires Inv(w) && Enabled(w, a)
    ensures Inv(Do(w, a))
  {
    match a
    case Background(s) =>
      StepKeepsForest(w.canvas, s);
      forall d, t | Guarded(LinksOf(w.canvas.nodes), d, t)
        ensures Guarded(LinksOf(DoStep(w.canvas, s).nodes), d, t)
      {
        StepKeepsGuard(w.canvas, s, d, t);
      }
    case Confirm => StartNestKeepsInv(w.canvas, w.phase.d, w.phase.target);
    case Extract(d) => StartNestKeepsInv(w.canvas, d, None);
    case PatchFailed => NestKeepsForest(w.canvas.nodes, w.phase.pending.dragged, w.phase.pending.oldParent);
    case _ =>
  }

  ghost predicate Next(w: World, w': World) {
    exists a :: Enabled(w, a) && w' == Do(w, a)
  }

  ghost predicate IsRun(run: seq<World>) {
    && run != []
    && forall i :: 0 < i < |run| ==> Next(run[i - 1], run[i])
  }

  /** In every run from an idle forest with no edges, removals of any node included, the
      node list is a forest with unique ids at every point, and a node is hidden exactly
      when it has a parent. */
  lemma {:induction false} RunsStayForests(run: seq<World>, i: nat)
    requires IsRun(run) && i < |run|
    requires Forest(run[0].canvas.nodes) && run[0].canvas.edges == [] && run[0].phase.Idle?
    ensures Inv(run[i])
    decreases i
  {
    if i > 0 {
      RunsStayForests(run, i - 1);
      var w, w' := run[i - 1], run[i];
      assert Next(w, w');
      var a :| Enabled(w, a) && w' == Do(w, a);
      ActKeepsInv(w, a);
    }
  }

  /** A snapshot becomes one node for each row, in order, with the row's data and place,
      hidden exactly if it has a parent, and no edges; so it is a fit start exactly when its
      ids are unique and its parents acyclic. */
  lemma SnapshotIsForest(c: State, ws: seq<Workspace>)
    ensures var h := Hydrated(c, ws);
            && h.edges == [] && h.selected == c.selected && h.messages == c.messages
            && |h.nodes| == |ws|
            && (forall i :: 0 <= i < |ws| ==>
                  && h.nodes[i].id == ws[i].id && h.nodes[i].x == ws[i].x && h.nodes[i].y == ws[i].y
                  && h.nodes[i].data.(needsRestart := ws[i].data.needsRestart) == ws[i].data
                  && !h.nodes[i].data.needsRestart
                  && (h.nodes[i].hidden <==> ws[i].data.parentId.Some?))
            && (Forest(h.nodes) <==> UniqueIds(h.nodes) && Acyclic(LinksOf(h.nodes)))
  {
  }

  /** A snapshot loaded while a dialog is open: confirming keeps the forest exactly if the
      guard holds in the snapshot. */
  lemma LoadUnderDialog(c: State, rows: seq<Workspace>, d: Id, t: Option<Id>)
    requires Forest(Hydrated(c, rows).nodes)
    ensures var h := Hydrated(c, rows);
            Forest(Nest(h, d, t).nodes) <==> d !in Ids(h.nodes) || Safe(LinksOf(h.nodes), d, t)
  {
    NestKeepsForest(Hydrated(c, rows).nodes, d, t);
  }

  /** And it need not: for any two nodes, if the snapshot has the target below the dragged
      node, confirming closes a cycle, whatever the guard said before. */
  lemma LoadUnderDialogClosesCycle(c: State, d: Id, t: Id, data: NodeData) returns (rows: seq<Workspace>)
    requires d != t
    ensures Forest(Hydrated(c, rows).nodes) && d in Ids(Hydrated(c, rows).nodes) && t in Ids(Hydrated(c, rows).nodes)
    ensures !Forest(Nest(Hydrated(c, rows), d, Some(t)).nodes)
  {
    rows := [Workspace(d, 0, 0, data.(parentId := None)), Workspace(t, 0, 0, data.(parentId := Some(d)))];
    var h := Hydrated(c, rows).nodes;
    assert h[0] in h && h[1] in h && |h| == 2 && forall n :: n in h ==> n == h[0] || n == h[1];
    FindUnique(h, h[0]);
    FindUnique(h, h[1]);
    var m := LinksOf(h);
    LinksAt(h, d);
    LinksAt(h, t);
    forall n ensures !Ancestor(m, n, n) {
      AncestorStep(m, n, n);
      AncestorStep(m, n, d);
      if n in m { LinksAt(h, n); FindFirst(h, n); }
    }
    AncestorStep(m, d, t);
    LoadUnderDialog(c, rows, d, Some(t));
  }

  /** Why a drag may not start while a nest is in flight: in every forest, extract a child
      `a` of `p`, light up `a` as the target for `p` (the guard allows it), let the
      extraction fail, and confirming the drag closes a cycle. */
  lemma DragDuringFlightClosesCycle(c: State, a: Id, p: Id)
    requires Forest(c.nodes) && ParentOf(c.nodes, a) == Some(p) && p in Ids(c.nodes)
    ensures var o := Nest(c, a, None);
            && MayHover(o.nodes, p, a)
            && !Forest(Nest(Revert(o, PendingNest(c, a)), p, Some(a)).nodes)
  {
    var o := Nest(c, a, None);
    FindFirst(c.nodes, a);
    LinksOfSetParent(c.nodes, a, None);
    LinksAt(c.nodes, a);
    AncestorStep(LinksOf(c.nodes), a, a);
    AncestorStep(LinksOf(o.nodes), p, a);
    NestThenRevert(c.nodes, a, None);
    AncestorStep(LinksOf(c.nodes), p, a);
    NestKeepsForest(c.nodes, p, Some(a));
  }

  // ---- messages for the chat tab

  /** Messages a step brings in for a workspace, and messages it hands to the reader. */
  function Arriving(s: Step, ws: Id): seq<Message> {
    if s.Ws? && s.ws == ws && (s.event.AgentMessage? || s.event.Response?) && s.event.message.content != ""
    then [s.event.message] else []
  }

  function Handed(c: State, s: Step, ws: Id): seq<Message> {
    if s == Consume(ws) then MessagesFor(c, ws) else []
  }

  function AllArriving(steps: seq<Step>, ws: Id): seq<Message> {
    if steps == [] then [] else Arriving(steps[0], ws) + AllArriving(steps[1..], ws)
  }

  function AllHanded(c: State, steps: seq<Step>, ws: Id): seq<Message>
    decreases steps
  {
    if steps == [] then [] else Handed(c, steps[0], ws) + AllHanded(DoStep(c, steps[0]), steps[1..], ws)
  }

  lemma StepConservesMessages(c: State, s: Step, ws: Id)
    ensures MessagesFor(c, ws) + Arriving(s, ws) == Handed(c, s, ws) + MessagesFor(DoStep(c, s), ws)
  {
  }

  /** Every agent message is read once, in order: over any steps, what was waiting plus
      what arrived is what was handed over plus what still waits. */
  lemma {:induction false} MessagesAreConserved(c: State, steps: seq<Step>, ws: Id)
    ensures MessagesFor(c, ws) + AllArriving(steps, ws) ==
            AllHanded(c, steps, ws) + MessagesFor(DoSteps(c, steps), ws)
    decreases steps
  {
    if steps != [] {
      StepConservesMessages(c, steps[0], ws);
      MessagesAreConserved(DoStep(c, steps[0]), steps[1..], ws);
      JoinConserved(MessagesFor(c, ws), Arriving(steps[0], ws), AllArriving(steps[1..], ws),
                    Handed(c, steps[0], ws), MessagesFor(DoStep(c, steps[0]), ws),
                    AllHanded(DoStep(c, steps[0]), steps[1..], ws), MessagesFor(DoSteps(c, steps), ws));
    }
  }

  lemma JoinConserved<T>(q: seq<T>, a: seq<T>, a': seq<T>, h: seq<T>, q': seq<T>, h': seq<T>, q'': seq<T>)
    requires q + a == h + q' && q' + a' == h' + q''
    ensures q + (a + a') == (h + h') + q''
  {
    assert q + (a + a') == (q + a) + a' == h + (q' + a');
  }
}
