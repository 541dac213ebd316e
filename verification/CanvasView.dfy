/** What the user sees after any steps: the selection, the order of nodes and edges, and
    the data each node shows. */
module CanvasView {
  import opened Basics
  import opened Hierarchy
  import opened Canvas
  import opened CanvasRuns

  // ---- what a removal takes

  lemma {:induction false} WithoutIs(nodes: seq<Node>, x: Id)
    ensures Without(nodes, x) == FilterMap(nodes, (n: Node) => n.id != x, n => n)
  {
    if nodes != [] { WithoutIs(nodes[1..], x); }
  }

  lemma {:induction false} WithoutEdgesIs(edges: seq<Edge>, x: Id)
    ensures WithoutEdges(edges, x) == FilterMap(edges, (e: Edge) => e.source != x && e.target != x, e => e)
  {
    if edges != [] { WithoutEdgesIs(edges[1..], x); }
  }

  /** A removal takes exactly the nodes with the id and the edges at it, and leaves the
      others in their order; a child of the removed node comes under its parent, visible if
      there is none, and nothing else of a node changes. */
  lemma RemovalTakes(c: State, x: Id) returns (at: seq<nat>, edgesAt: seq<nat>)
    ensures Increasing(at) && AreAll(c.nodes, (n: Node) => n.id != x, at)
    ensures var b := RemoveNode(c, x).nodes;
            && |b| == |at|
            && forall k :: 0 <= k < |at| ==> (
                 && at[k] < |c.nodes|
                 && var n, p := c.nodes[at[k]], ParentOf(c.nodes, x);
                    b[k] == if n.data.parentId != Some(x) then n
                            else n.(hidden := p.Some?, data := n.data.(parentId := p)))
    ensures Picks(c.edges, (e: Edge) => e.source != x && e.target != x, e => e, edgesAt, RemoveNode(c, x).edges)
    ensures RemoveNode(c, x).messages == c.messages
  {
    at := FilterMapPicks(c.nodes, (n: Node) => n.id != x, n => n);
    WithoutIs(c.nodes, x);
    edgesAt := FilterMapPicks(c.edges, (e: Edge) => e.source != x && e.target != x, e => e);
    WithoutEdgesIs(c.edges, x);
  }

  /** A nest takes exactly the edges at the moved node, sets that node's parent and hides it
      if it has one, and changes nothing else. */
  lemma NestTakes(c: State, d: Id, t: Option<Id>) returns (edgesAt: seq<nat>)
    ensures Picks(c.edges, (e: Edge) => e.source != d && e.target != d, e => e, edgesAt, Nest(c, d, t).edges)
    ensures var b := Nest(c, d, t).nodes;
            && |b| == |c.nodes|
            && forall i :: 0 <= i < |b| ==>
                 b[i] == if c.nodes[i].id != d then c.nodes[i]
                         else c.nodes[i].(hidden := t.Some?, data := c.nodes[i].data.(parentId := t))
    ensures Nest(c, d, t).selected == c.selected && Nest(c, d, t).messages == c.messages
  {
    edgesAt := FilterMapPicks(c.edges, (e: Edge) => e.source != d && e.target != d, e => e);
    WithoutEdgesIs(c.edges, d);
  }

  // ---- the selection

  lemma {:induction false} StepsAppend(c: State, a: seq<Step>, b: seq<Step>)
    ensures DoSteps(c, a + b) == DoSteps(DoSteps(c, a), b)
    decreases a
  {
    if a == [] {
      assert a + b == b;
    } else {
      assert (a + b)[1..] == a[1..] + b;
      StepsAppend(DoStep(c, a[0]), a[1..], b);
    }
  }

  /** Without a new choice the selection stays until the selected node is removed, and then
      it is empty; no other step touches it. */
  lemma {:induction false} SelectionStays(c: State, steps: seq<Step>)
    requires forall s :: s in steps ==> !s.Select?
    ensures DoSteps(c, steps).selected ==
            if c.selected.Some? && exists s :: s in steps && Gone(s) == c.selected then None else c.selected
    decreases steps
  {
    if steps != [] {
      assert forall s :: s in steps <==> s == steps[0] || s in steps[1..];
      SelectionStays(DoStep(c, steps[0]), steps[1..]);
      if Gone(steps[0]) != c.selected {
        assert DoStep(c, steps[0]).selected == c.selected;
      } else {
        assert steps[0] in steps;
      }
    }
  }

  /** After any steps the selection is the last choice made, unless its node was removed
      since; `k` is how many steps that choice took. */
  lemma SelectionIs(c: State, steps: seq<Step>, k: nat)
    requires 0 < k <= |steps| && steps[k - 1].Select? && forall j :: k <= j < |steps| ==> !steps[j].Select?
    ensures var id := steps[k - 1].node;
            DoSteps(c, steps).selected ==
            if id.Some? && exists j :: k <= j < |steps| && Gone(steps[j]) == id then None else id
  {
    var before, since := steps[..k - 1], steps[k..];
    assert steps == before + ([steps[k - 1]] + since);
    StepsAppend(c, before, [steps[k - 1]] + since);
    assert ([steps[k - 1]] + since)[1..] == since;
    SelectionStays(DoStep(DoSteps(c, before), steps[k - 1]), since);
    forall j | k <= j < |steps| ensures steps[j] in since { assert steps[j] == since[j - k]; }
  }

  /** The step that removes a node leaves something else selected, or nothing. */
  lemma RemovedIsNotSelected(c: State, steps: seq<Step>, k: nat)
    requires k < |steps| && Gone(steps[k]).Some?
    ensures DoSteps(c, steps[..k + 1]).selected != Gone(steps[k])
    ensures DoSteps(c, steps[..k]).selected != Gone(steps[k]) ==>
            DoSteps(c, steps[..k + 1]).selected == DoSteps(c, steps[..k]).selected
  {
    assert steps[..k + 1] == steps[..k] + [steps[k]] && [steps[k]][1..] == [];
    StepsAppend(c, steps[..k], [steps[k]]);
  }

  /** Every choice is of a node that is there, or of none. */
  ghost predicate ChoosesPresent(c: State, steps: seq<Step>)
    decreases steps
  {
    steps != [] ==>
      && (steps[0].Select? && steps[0].node.Some? ==> steps[0].node.value in Ids(c.nodes))
      && ChoosesPresent(DoStep(c, steps[0]), steps[1..])
  }

  ghost predicate SelectsNode(c: State) {
    c.selected.Some? ==> c.selected.value in Ids(c.nodes)
  }

  /** Then what is selected is a node at every time. */
  lemma {:induction false} SelectionNamesNode(c: State, steps: seq<Step>)
    requires SelectsNode(c) && ChoosesPresent(c, steps)
    ensures SelectsNode(DoSteps(c, steps))
    decreases steps
  {
    if steps != [] {
      StepLinks(c, steps[0]);
      SelectionNamesNode(DoStep(c, steps[0]), steps[1..]);
    }
  }

  // ---- the data a node shows

  /** What an event sets in the data of its node, field by field. */
  function StatusSet(e: Event): Option<string> {
    match e
    case Online => Some("online")
    case Offline => Some("offline")
    case Paused => Some("paused")
    case Degraded(_, _) => Some("degraded")
    case Provisioning(_, _) => Some("provisioning")
    case ProvisionFailed(_) => Some("failed")
    case _ => None
  }

  function TaskSet(e: Event): Option<string> {
    if e.Paused? || e.Provisioning? then Some("")
    else if e.TaskUpdated? then Some(Or(e.task, ""))
    else None
  }

  function ActiveSet(e: Event): Option<int> {
    if e.TaskUpdated? then Some(Or(e.active, 0)) else None
  }

  function ErrorSet(e: Event): Option<string> {
    match e
    case Degraded(_, sample) => Some(Or(sample, ""))
    case ProvisionFailed(error) => Some(Or(error, "Unknown provisioning error"))
    case _ => None
  }

  function RateSet(e: Event): Option<real> {
    if e.Degraded? then Some(Or(e.errorRate, 0.0)) else None
  }

  function CardSet(e: Event): Option<Option<string>> {
    if e.CardUpdated? then Some(e.card) else None
  }

  function RestartSet(e: Event): Option<bool> {
    if e.Provisioning? then Some(false) else None
  }

  /** What the steps about this node last set, or what was there before. */
  function LastSet<T>(steps: seq<Step>, id: Id, sets: Event -> Option<T>, was: T): T
    decreases |steps|
  {
    if steps == [] then was
    else
      var last := steps[|steps| - 1];
      if last.Ws? && last.ws == id && sets(last.event).Some? then sets(last.event).value
      else LastSet(steps[..|steps| - 1], id, sets, was)
  }

  function DataOf(c: State, id: Id): NodeData
    requires id in Ids(c.nodes)
  {
    FindFirst(c.nodes, id);
    Find(c.nodes, id).value.data
  }

  lemma RemovalData(c: State, x: Id, id: Id)
    requires id in Ids(c.nodes) && x != id
    ensures id in Ids(RemoveNode(c, x).nodes)
    ensures var d' := DataOf(RemoveNode(c, x), id);
            d' == DataOf(c, id).(parentId := d'.parentId)
  {
    var b := RemoveNode(c, x).nodes;
    LinksOfRemoved(c, x);
    FindFirst(c.nodes, id);
    var w := Without(c.nodes, x);
    FindWithout(c.nodes, x, id);
    FindFirst(w, id);
    var i := FindMapped(w, b, id);
  }

  lemma PatchData(c: State, ws: Id, e: Event, id: Id)
    requires id in Ids(c.nodes)
    ensures var b := PatchNode(c.nodes, ws, e);
            && id in Ids(b)
            && DataOf(c.(nodes := b), id) == if ws == id then Patched(DataOf(c, id), e) else DataOf(c, id)
  {
    LinksOfPatched(c.nodes, ws, e);
    FindFirst(c.nodes, id);
    var i := FindMapped(c.nodes, PatchNode(c.nodes, ws, e), id);
  }

  lemma StepData(c: State, s: Step, id: Id)
    requires id in Ids(c.nodes) && Gone(s) != Some(id)
    ensures id in Ids(DoStep(c, s).nodes)
    ensures var d, d' := DataOf(c, id), DataOf(DoStep(c, s), id);
            d' == (if s.Ws? && s.ws == id then Patched(d, s.event) else d).(parentId := d'.parentId)
  {
    StepLinks(c, s);
    if Gone(s).Some? {
      RemovalData(c, Gone(s).value, id);
    } else if s.Ws? {
      if s.event.Provisioning? && s.ws !in Ids(c.nodes) {
        FindAppend(c.nodes, NewNode(s.ws, |c.nodes| * 40, s.event.name, s.event.tier), id);
      } else {
        PatchData(c, s.ws, s.event, id);
      }
    }
  }

  function ShownAfter(d: NodeData, steps: seq<Step>, id: Id): NodeData {
    d.(status := LastSet(steps, id, StatusSet, d.status),
       currentTask := LastSet(steps, id, TaskSet, d.currentTask),
       activeTasks := LastSet(steps, id, ActiveSet, d.activeTasks),
       lastSampleError := LastSet(steps, id, ErrorSet, d.lastSampleError),
       lastErrorRate := LastSet(steps, id, RateSet, d.lastErrorRate),
       agentCard := LastSet(steps, id, CardSet, d.agentCard),
       needsRestart := LastSet(steps, id, RestartSet, d.needsRestart))
  }

  lemma LastSetOneMore<T>(front: seq<Step>, last: Step, id: Id, sets: Event -> Option<T>, was: T)
    ensures LastSet(front + [last], id, sets, was) ==
            if last.Ws? && last.ws == id && sets(last.event).Some? then sets(last.event).value
            else LastSet(front, id, sets, was)
  {
    assert (front + [last])[..|front|] == front;
  }

  lemma ShownOneMore(d: NodeData, front: seq<Step>, last: Step, id: Id)
    requires Gone(last) != Some(id)
    ensures ShownAfter(d, front + [last], id) ==
            if last.Ws? && last.ws == id then Patched(ShownAfter(d, front, id), last.event)
            else ShownAfter(d, front, id)
  {
    LastSetOneMore(front, last, id, StatusSet, d.status);
    LastSetOneMore(front, last, id, TaskSet, d.currentTask);
    LastSetOneMore(front, last, id, ActiveSet, d.activeTasks);
    LastSetOneMore(front, last, id, ErrorSet, d.lastSampleError);
    LastSetOneMore(front, last, id, RateSet, d.lastErrorRate);
    LastSetOneMore(front, last, id, CardSet, d.agentCard);
    LastSetOneMore(front, last, id, RestartSet, d.needsRestart);
  }

  /** After any steps that leave the node in place each field shows what the last event that
      sets it set, and the fields no event sets stay, the parent aside. */
  lemma {:induction false} DataShown(c: State, steps: seq<Step>, id: Id)
    requires id in Ids(c.nodes) && forall s :: s in steps ==> Gone(s) != Some(id)
    ensures id in Ids(DoSteps(c, steps).nodes)
    ensures var d' := DataOf(DoSteps(c, steps), id);
            d' == ShownAfter(DataOf(c, id), steps, id).(parentId := d'.parentId)
    decreases |steps|
  {
    if steps != [] {
      var front, last := steps[..|steps| - 1], steps[|steps| - 1];
      DataShown(c, front, id);
      assert steps == front + [last] && [last][1..] == [];
      StepsAppend(c, front, [last]);
      StepData(DoSteps(c, front), last, id);
      ShownOneMore(DataOf(c, id), front, last, id);
      if last.Ws? {
        PatchedIgnoresParent(DataOf(DoSteps(c, front), id), ShownAfter(DataOf(c, id), front, id), last.event);
      }
    }
  }

  lemma PatchedIgnoresParent(a: NodeData, b: NodeData, e: Event)
    requires a == b.(parentId := a.parentId)
    ensures Patched(a, e) == Patched(b, e).(parentId := a.parentId)
  {
  }

  /** A node that arrives stands last, as a visible root on the diagonal, behind the others
      in the list; a name and a tier that are missing are "New Workspace" and 1. */
  lemma ArrivalShows(c: State, id: Id, name: Option<string>, tier: Option<int>)
    requires id !in Ids(c.nodes)
    ensures var b := HandleEvent(c, id, Provisioning(name, tier)).nodes;
            && |b| == |c.nodes| + 1 && b[..|c.nodes|] == c.nodes
            && var n := b[|c.nodes|];
               && n.id == id && n.x == n.y == 40 * |c.nodes| && !n.hidden && n.data.parentId.None?
               && n.data.status == "provisioning" && !n.data.needsRestart && n.data.currentTask == ""
               && (name.Some? ==> n.data.name == name.value) && (name.None? ==> n.data.name == "New Workspace")
               && (tier.Some? ==> n.data.tier == tier.value) && (tier.None? ==> n.data.tier == 1)
  {
  }
}
