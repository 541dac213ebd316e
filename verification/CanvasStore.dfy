/** The store object itself, and the two recursive walks over its node list. */
module CanvasStore {
  import opened Basics
  import opened Hierarchy
  import opened Canvas
  import CanvasRuns

  class Store {
    var nodes: seq<Node>
    var edges: seq<Edge>
    var selectedNodeId: Option<Id>
    var agentMessages: map<Id, seq<Message>>

    /** The store's state as a value. */
    ghost function View(): State
      reads this
    {
      State(nodes, edges, selectedNodeId, agentMessages)
    }

    constructor ()
      ensures View() == State([], [], None, map[])
    {
      nodes, edges, selectedNodeId, agentMessages := [], [], None, map[];
    }

    method Hydrate(workspaces: seq<Workspace>)
      modifies this
      ensures View() == Hydrated(old(View()), workspaces)
    {
      nodes := seq(|workspaces|, i requires 0 <= i < |workspaces| => NodeFor(workspaces[i]));
      edges := [];
    }

    method ConsumeAgentMessages(ws: Id) returns (msgs: seq<Message>)
      modifies this
      ensures msgs == MessagesFor(old(View()), ws)
      ensures View() == CanvasRuns.DoStep(old(View()), CanvasRuns.Consume(ws))
    {
      msgs := if ws in agentMessages then agentMessages[ws] else [];
      if |msgs| > 0 {
        agentMessages := agentMessages - {ws};
      }
    }

    method RemoveNode(id: Id)
      modifies this
      ensures View() == Canvas.RemoveNode(old(View()), id)
      ensures selectedNodeId == if old(selectedNodeId) == Some(id) then None else old(selectedNodeId)
    {
      var deleted := Find(nodes, id);
      var parentOfDeleted := if deleted.Some? then deleted.value.data.parentId else None;
      nodes := Adopt(Without(nodes, id), id, parentOfDeleted);
      edges := WithoutEdges(edges, id);
      selectedNodeId := if selectedNodeId == Some(id) then None else selectedNodeId;
    }

    /** `handleCanvasEvent`.  A removal event and `RemoveNode` leave the same state. */
    method ApplyEvent(ws: Id, event: Event)
      modifies this
      ensures View() == HandleEvent(old(View()), ws, event)
      ensures event.Removed? ==> View() == Canvas.RemoveNode(old(View()), ws) && selectedNodeId != Some(ws)
      ensures !event.Removed? || old(selectedNodeId) != Some(ws) ==> selectedNodeId == old(selectedNodeId)
    {
      match event {
        case Provisioning(name, tier) =>
          FindFirst(nodes, ws);
          if Find(nodes, ws).Some? {
            nodes := PatchNode(nodes, ws, event);
          } else {
            nodes := nodes + [NewNode(ws, |nodes| * 40, name, tier)];
          }
        case Removed =>
          var removed := Find(nodes, ws);
          var parentOfRemoved := if removed.Some? then removed.value.data.parentId else None;
          nodes := Adopt(Without(nodes, ws), ws, parentOfRemoved);
          edges := WithoutEdges(edges, ws);
          selectedNodeId := if selectedNodeId == Some(ws) then None else selectedNodeId;
        case AgentMessage(m) => AddMessage(ws, m);
        case Response(m) => AddMessage(ws, m);
        case Online =>
          FindFirst(nodes, ws);
          if Find(nodes, ws).Some? {
            nodes := PatchNode(nodes, ws, event);
          } else {
            PatchAbsent(nodes, ws, event);
          }
        case Unknown =>
        case _ => nodes := PatchNode(nodes, ws, event);
      }
    }

    method AddMessage(ws: Id, m: Message)
      modifies this`agentMessages
      ensures View() == Push(old(View()), ws, m)
    {
      if m.content != "" {
        var existing := if ws in agentMessages then agentMessages[ws] else [];
        agentMessages := agentMessages[ws := existing + [m]];
      }
    }

    /** `nestNode` up to its request.  The result is what the `catch` block will need, or
        nothing when there is no change to make. */
    method NestNode(draggedId: Id, targetId: Option<Id>) returns (pending: Option<Pending>)
      modifies this
      ensures var w := CanvasRuns.StartNest(old(View()), draggedId, targetId);
              && View() == w.canvas
              && w.phase == if pending.Some? then CanvasRuns.InFlight(pending.value) else CanvasRuns.Idle
    {
      var dragged := Find(nodes, draggedId);
      var currentParentId := if dragged.Some? then dragged.value.data.parentId else None;
      if currentParentId == targetId {
        return None;
      }
      pending := Some(Pending(draggedId, currentParentId, edges));
      nodes, edges := SetParent(nodes, draggedId, targetId), WithoutEdges(edges, draggedId);
    }

    /** The `catch` block of `nestNode`, on whatever the store holds by then. */
    method NestFailed(pending: Pending)
      modifies this
      ensures View() == Revert(old(View()), pending)
    {
      nodes := SetParent(nodes, pending.dragged, pending.oldParent);
      edges := pending.edges;
    }

    /** The walk up the parent links.  It ends exactly when the climb does, which it
        always does on a forest; then it decides the ancestor relation. */
    method IsDescendant(ancestorId: Id, nodeId: Id) returns (b: bool)
      requires WalkEnds(LinksOf(nodes), ancestorId, nodeId)
      ensures b <==> Ancestor(LinksOf(nodes), ancestorId, nodeId)
    {
      ghost var m := LinksOf(nodes);
      ghost var end: nat :| Up(m, nodeId, end).None? || (end > 0 && Up(m, nodeId, end) == Some(ancestorId));
      ghost var id, i := nodeId, 0;
      var current := Find(nodes, nodeId);
      LinksAt(nodes, id);
      while current.Some? && current.value.data.parentId.Some?
        invariant current == Find(nodes, id) && Up(m, nodeId, i) == Some(id)
        invariant i <= end
        invariant id in m <==> current.Some? && current.value.data.parentId.Some?
        invariant id in m ==> m[id] == current.value.data.parentId.value
        invariant forall j :: 0 < j <= i ==> Up(m, nodeId, j) != Some(ancestorId)
        decreases end - i
      {
        UpSplit(m, nodeId, i, 1);
        assert Up(m, nodeId, i + 1) == Some(m[id]);
        if i == end {
          assert false;
        }
        if current.value.data.parentId == Some(ancestorId) {
          return true;
        }
        id, i := current.value.data.parentId.value, i + 1;
        current := Find(nodes, current.value.data.parentId.value);
        LinksAt(nodes, id);
      }
      UpSplit(m, nodeId, i, 1);
      forall k: nat | k > i ensures Up(m, nodeId, k).None? { UpStaysNone(m, nodeId, i + 1, k); }
      return false;
    }
  }

  /** `onNodeDrag`: the first node under the pointer that may take the dragged one.  The
      walks it makes must end, as they always do on an acyclic list. */
  method DragTarget(store: Store, nodeId: Id, intersecting: seq<Id>) returns (target: Option<Id>)
    requires forall id :: id in intersecting && id != nodeId ==> WalkEnds(LinksOf(store.nodes), nodeId, id)
    ensures target.None? ==> forall id :: id in intersecting ==> !Guarded(LinksOf(store.nodes), nodeId, id)
    ensures target.Some? ==> exists i :: 0 <= i < |intersecting| && intersecting[i] == target.value
                               && Guarded(LinksOf(store.nodes), nodeId, target.value)
                               && forall j :: 0 <= j < i ==> !Guarded(LinksOf(store.nodes), nodeId, intersecting[j])
  {
    for i := 0 to |intersecting|
      invariant forall j :: 0 <= j < i ==> !Guarded(LinksOf(store.nodes), nodeId, intersecting[j])
    {
      if intersecting[i] != nodeId {
        var below := store.IsDescendant(nodeId, intersecting[i]);
        if !below {
          return Some(intersecting[i]);
        }
      }
    }
    return None;
  }

  lemma PatchAbsent(nodes: seq<Node>, ws: Id, e: Event)
    requires ws !in Ids(nodes)
    ensures PatchNode(nodes, ws, e) == nodes
  {
    forall i | 0 <= i < |nodes| ensures nodes[i].id != ws { assert nodes[i] in nodes; }
  }

  // ---- counting a team

  /** The `visited` set that all the recursive calls share. */
  class IdSet {
    var ids: set<Id>

    constructor ()
      ensures ids == {}
    {
      ids := {};
    }
  }

  function ChildrenOf(nodes: seq<Node>, id: Id): seq<Node> {
    if nodes == [] then []
    else if nodes[0].data.parentId == Some(id) then [nodes[0]] + ChildrenOf(nodes[1..], id)
    else ChildrenOf(nodes[1..], id)
  }

  ghost predicate ChildOfSome(n: Node, parents: set<Id>) {
    n.data.parentId.Some? && n.data.parentId.value in parents
  }

  /** How many list entries have their parent in the set. */
  ghost function CountIn(nodes: seq<Node>, parents: set<Id>): nat {
    if nodes == [] then 0
    else (if ChildOfSome(nodes[0], parents) then 1 else 0) + CountIn(nodes[1..], parents)
  }

  lemma {:induction false} CountInUnion(nodes: seq<Node>, a: set<Id>, b: set<Id>)
    requires a !! b
    ensures CountIn(nodes, a + b) == CountIn(nodes, a) + CountIn(nodes, b)
  {
    if nodes != [] { CountInUnion(nodes[1..], a, b); }
  }

  lemma {:induction false} ChildrenCounted(nodes: seq<Node>, id: Id)
    ensures |ChildrenOf(nodes, id)| == CountIn(nodes, {id})
    ensures forall n :: n in ChildrenOf(nodes, id) <==> n in nodes && n.data.parentId == Some(id)
  {
    if nodes != [] { ChildrenCounted(nodes[1..], id); }
  }

  /** Among nodes with unique ids the entries counted are as many as their ids. */
  lemma {:induction false} CountIsCardinality(nodes: seq<Node>, parents: set<Id>)
    requires UniqueIds(nodes)
    ensures CountIn(nodes, parents) == |set n | n in nodes && ChildOfSome(n, parents) :: n.id|
  {
    var ids := set n | n in nodes && ChildOfSome(n, parents) :: n.id;
    if nodes == [] {
      assert ids == {};
    } else {
      var rest := set n | n in nodes[1..] && ChildOfSome(n, parents) :: n.id;
      CountIsCardinality(nodes[1..], parents);
      assert nodes == [nodes[0]] + nodes[1..];
      forall n | n in nodes[1..] ensures n.id != nodes[0].id {}
      if ChildOfSome(nodes[0], parents) {
        assert ids == rest + {nodes[0].id};
      } else {
        assert ids == rest;
      }
    }
  }

  /** What one call adds to the shared set: `root` and nodes below it, closed under
      taking children (unless those were visited before). */
  ghost predicate Explored(nodes: seq<Node>, root: Id, before: set<Id>, after: set<Id>) {
    && before <= after && root in after
    && (forall n :: n in nodes && ChildOfSome(n, after - before) ==> n.id in after)
    && (UniqueIds(nodes) ==>
          forall v :: v in after - before ==> v == root || Ancestor(LinksOf(nodes), root, v))
  }

  /** The recursion, on any list whatever: it ends because each call that does not return
      at once visits an id not visited before. */
  method CountFrom(nodeId: Id, allNodes: seq<Node>, visited: IdSet) returns (count: nat)
    modifies visited
    ensures Explored(allNodes, nodeId, old(visited.ids), visited.ids)
    ensures count == CountIn(allNodes, visited.ids - old(visited.ids))
    decreases Ids(allNodes) + {nodeId} - visited.ids
  {
    if nodeId in visited.ids {
      NothingCounted(allNodes);
      assert visited.ids - old(visited.ids) == {};
      return 0;
    }
    ghost var before := visited.ids;
    visited.ids := visited.ids + {nodeId};
    ghost var base := visited.ids;
    var directChildren := ChildrenOf(allNodes, nodeId);
    ChildrenCounted(allNodes, nodeId);
    count := |directChildren|;
    ghost var more := 0;
    NothingBelow(allNodes, nodeId, base);
    for i := 0 to |directChildren|
      invariant Below(allNodes, nodeId, base, visited.ids, more) && count == |directChildren| + more
      invariant forall j :: 0 <= j < i ==> directChildren[j].id in visited.ids
    {
      ghost var mid := visited.ids;
      assert directChildren[i] in directChildren;
      var c := CountFrom(directChildren[i].id, allNodes, visited);
      count := count + c;
      more := more + c;
      OneChildMore(allNodes, nodeId, directChildren[i], base, mid, visited.ids, more - c);
    }
    AllExplored(allNodes, nodeId, before, visited.ids, more);
  }

  /** Between `base` and `now` nodes below `root` were visited, closed under taking
      children, and `more` entries have one of them as parent. */
  ghost predicate Below(nodes: seq<Node>, root: Id, base: set<Id>, now: set<Id>, more: nat) {
    && base <= now && more == CountIn(nodes, now - base)
    && (forall n :: n in nodes && ChildOfSome(n, now - base) ==> n.id in now)
    && (UniqueIds(nodes) ==> forall v :: v in now - base ==> Ancestor(LinksOf(nodes), root, v))
  }

  lemma NothingBelow(nodes: seq<Node>, root: Id, base: set<Id>)
    ensures Below(nodes, root, base, base, 0)
  {
    assert base - base == {};
    NothingCounted(nodes);
  }

  lemma OneChildMore(nodes: seq<Node>, root: Id, child: Node, base: set<Id>, mid: set<Id>, now: set<Id>, more: nat)
    requires Below(nodes, root, base, mid, more) && Explored(nodes, child.id, mid, now)
    requires child in nodes && child.data.parentId == Some(root)
    ensures Below(nodes, root, base, now, more + CountIn(nodes, now - mid))
  {
    assert now - base == (mid - base) + (now - mid);
    CountInUnion(nodes, mid - base, now - mid);
    if UniqueIds(nodes) { BelowChild(nodes, root, child); }
  }

  lemma AllExplored(nodes: seq<Node>, root: Id, before: set<Id>, now: set<Id>, more: nat)
    requires root !in before && Below(nodes, root, before + {root}, now, more)
    requires forall n :: n in nodes && n.data.parentId == Some(root) ==> n.id in now
    ensures Explored(nodes, root, before, now)
    ensures CountIn(nodes, now - before) == CountIn(nodes, {root}) + more
  {
    var base := before + {root};
    assert now - before == {root} + (now - base);
    CountInUnion(nodes, {root}, now - base);
  }

  lemma {:induction false} NothingCounted(nodes: seq<Node>)
    ensures CountIn(nodes, {}) == 0
  {
    if nodes != [] { NothingCounted(nodes[1..]); }
  }

  lemma BelowChild(nodes: seq<Node>, root: Id, child: Node)
    requires UniqueIds(nodes) && child in nodes && child.data.parentId == Some(root)
    ensures Ancestor(LinksOf(nodes), root, child.id)
    ensures forall v :: Ancestor(LinksOf(nodes), child.id, v) ==> Ancestor(LinksOf(nodes), root, v)
  {
    var m := LinksOf(nodes);
    FindUnique(nodes, child);
    LinksAt(nodes, child.id);
    AncestorStep(m, root, child.id);
    forall v | Ancestor(m, child.id, v) ensures Ancestor(m, root, v) {
      AncestorTransitive(m, root, child.id, v);
    }
  }

  /** A set that holds `root` and is closed under taking children holds all below it. */
  lemma {:induction false} ClosedHoldsBelow(nodes: seq<Node>, root: Id, s: set<Id>, v: Id, k: nat)
    requires root in s && forall n :: n in nodes && ChildOfSome(n, s) ==> n.id in s
    requires Up(LinksOf(nodes), v, k) == Some(root)
    ensures v in s
    decreases k
  {
    if k > 0 {
      var m := LinksOf(nodes);
      ClosedHoldsBelow(nodes, root, s, m[v], k - 1);
      LinksAt(nodes, v);
      FindFirst(nodes, v);
      assert ChildOfSome(Find(nodes, v).value, s);
    }
  }

  ghost function Team(nodes: seq<Node>, root: Id): set<Id> {
    set n | n in nodes && Ancestor(LinksOf(nodes), root, n.id) :: n.id
  }

  /** `countDescendants` with its default argument.  On every list with unique ids, cyclic
      or not, the result is the number of nodes that have the given id as a proper
      ancestor. */
  method CountDescendants(nodeId: Id, allNodes: seq<Node>) returns (count: nat)
    ensures UniqueIds(allNodes) ==> count == |Team(allNodes, nodeId)|
  {
    var visited := new IdSet();
    count := CountFrom(nodeId, allNodes, visited);
    ghost var s := visited.ids;
    assert s - {} == s;
    if UniqueIds(allNodes) {
      CountIsCardinality(allNodes, s);
      TeamIsChildrenOfExplored(allNodes, nodeId, s);
    }
  }

  lemma TeamIsChildrenOfExplored(nodes: seq<Node>, root: Id, s: set<Id>)
    requires UniqueIds(nodes) && Explored(nodes, root, {}, s)
    ensures (set n | n in nodes && ChildOfSome(n, s) :: n.id) == Team(nodes, root)
  {
    var m := LinksOf(nodes);
    assert s - {} == s;
    forall n | n in nodes ensures ChildOfSome(n, s) <==> Ancestor(m, root, n.id) {
      FindUnique(nodes, n);
      LinksAt(nodes, n.id);
      AncestorStep(m, root, n.id);
      if n.id in m && Ancestor(m, root, m[n.id]) {
        var k: nat :| k > 0 && Up(m, m[n.id], k) == Some(root);
        ClosedHoldsBelow(nodes, root, s, m[n.id], k);
      }
    }
  }
}
