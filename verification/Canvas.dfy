/** The canvas store's state and what each action and WebSocket event does to it
    (canvas/src/store/canvas.ts, canvas-events.ts, canvas-topology.ts).  An id is a
    non-empty string, so JavaScript's truth test on a parent id is "not null". */
module Canvas {
  import opened Basics
  import opened Hierarchy

  datatype NodeData = NodeData(
    name: string, status: string, tier: int, agentCard: Option<string>, activeTasks: int,
    collapsed: bool, role: string, lastErrorRate: real, lastSampleError: string, url: string,
    parentId: Option<Id>, currentTask: string, runtime: string, needsRestart: bool)

  datatype Node = Node(id: Id, x: int, y: int, hidden: bool, data: NodeData)
  datatype Edge = Edge(source: Id, target: Id)
  datatype Message = Message(id: string, content: string, timestamp: string)
  datatype State = State(nodes: seq<Node>, edges: seq<Edge>, selected: Option<Id>,
                         messages: map<Id, seq<Message>>)

  /** One row of the platform's workspace list. */
  datatype Workspace = Workspace(id: Id, x: int, y: int, data: NodeData)

  /** WebSocket events; `Option` payload fields may be missing.  The text of a response
      body is "" when there is nothing to extract. */
  datatype Event =
    | Online
    | Offline
    | Paused
    | Degraded(errorRate: Option<real>, sampleError: Option<string>)
    | Provisioning(name: Option<string>, tier: Option<int>)
    | Removed
    | CardUpdated(card: Option<string>)
    | TaskUpdated(task: Option<string>, active: Option<int>)
    | AgentMessage(message: Message)
    | ProvisionFailed(error: Option<string>)
    | Response(message: Message)
    | Unknown

  function Or<T>(o: Option<T>, default: T): T {
    if o.Some? then o.value else default
  }

  // ---- lookups

  /** The first node with this id. */
  function Find(nodes: seq<Node>, id: Id): Option<Node> {
    if nodes == [] then None
    else if nodes[0].id == id then Some(nodes[0])
    else Find(nodes[1..], id)
  }

  function ParentOf(nodes: seq<Node>, id: Id): Option<Id> {
    var n := Find(nodes, id);
    if n.Some? then n.value.data.parentId else None
  }

  function Ids(nodes: seq<Node>): set<Id> {
    set n | n in nodes :: n.id
  }

  /** The parent links a walk over the list follows. */
  function LinksOf(nodes: seq<Node>): Links {
    map id | id in Ids(nodes) && ParentOf(nodes, id).Some? :: ParentOf(nodes, id).value
  }

  ghost predicate UniqueIds(nodes: seq<Node>) {
    forall i, j :: 0 <= i < j < |nodes| ==> nodes[i].id != nodes[j].id
  }

  ghost predicate HiddenIffChild(nodes: seq<Node>) {
    forall n :: n in nodes ==> (n.hidden <==> n.data.parentId.Some?)
  }

  ghost predicate Forest(nodes: seq<Node>) {
    UniqueIds(nodes) && Acyclic(LinksOf(nodes)) && HiddenIffChild(nodes)
  }

  // ---- list updates

  function Reparented(n: Node, p: Option<Id>): Node {
    n.(hidden := p.Some?, data := n.data.(parentId := p))
  }

  function SetParent(nodes: seq<Node>, d: Id, p: Option<Id>): seq<Node> {
    seq(|nodes|, i requires 0 <= i < |nodes| =>
      if nodes[i].id == d then Reparented(nodes[i], p) else nodes[i])
  }

  function Without(nodes: seq<Node>, x: Id): seq<Node> {
    if nodes == [] then []
    else if nodes[0].id == x then Without(nodes[1..], x)
    else [nodes[0]] + Without(nodes[1..], x)
  }

  function Adopt(nodes: seq<Node>, x: Id, p: Option<Id>): seq<Node> {
    seq(|nodes|, i requires 0 <= i < |nodes| =>
      if nodes[i].data.parentId == Some(x) then Reparented(nodes[i], p) else nodes[i])
  }

  function WithoutEdges(edges: seq<Edge>, x: Id): seq<Edge> {
    if edges == [] then []
    else if edges[0].source != x && edges[0].target != x then [edges[0]] + WithoutEdges(edges[1..], x)
    else WithoutEdges(edges[1..], x)
  }

  /** What an event about an existing node does to that node's data. */
  function Patched(d: NodeData, e: Event): NodeData {
    match e
    case Online => d.(status := "online")
    case Offline => d.(status := "offline")
    case Paused => d.(status := "paused", currentTask := "")
    case Degraded(rate, sample) =>
      d.(status := "degraded", lastErrorRate := Or(rate, 0.0), lastSampleError := Or(sample, ""))
    case Provisioning(_, _) => d.(status := "provisioning", needsRestart := false, currentTask := "")
    case CardUpdated(card) => d.(agentCard := card)
    case TaskUpdated(task, active) => d.(currentTask := Or(task, ""), activeTasks := Or(active, 0))
    case ProvisionFailed(error) =>
      d.(status := "failed", lastSampleError := Or(error, "Unknown provisioning error"))
    case _ => d
  }

  function PatchNode(nodes: seq<Node>, ws: Id, e: Event): seq<Node> {
    seq(|nodes|, i requires 0 <= i < |nodes| =>
      if nodes[i].id == ws then nodes[i].(data := Patched(nodes[i].data, e)) else nodes[i])
  }

  /** The node a first provisioning event creates: a root, placed down the diagonal. */
  function NewNode(ws: Id, offset: int, name: Option<string>, tier: Option<int>): Node {
    Node(ws, offset, offset, false,
         NodeData(Or(name, "New Workspace"), "provisioning", Or(tier, 1), None, 0, false, "", 0.0, "", "",
                  None, "", "", false))
  }

  // ---- actions

  function RemoveNode(c: State, x: Id): State {
    c.(nodes := Adopt(Without(c.nodes, x), x, ParentOf(c.nodes, x)),
       edges := WithoutEdges(c.edges, x),
       selected := if c.selected == Some(x) then None else c.selected)
  }

  function MessagesFor(c: State, ws: Id): seq<Message> {
    if ws in c.messages then c.messages[ws] else []
  }

  function Push(c: State, ws: Id, m: Message): State {
    if m.content == "" then c
    else c.(messages := c.messages[ws := MessagesFor(c, ws) + [m]])
  }

  function HandleEvent(c: State, ws: Id, e: Event): State {
    match e
    case Removed => RemoveNode(c, ws)
    case AgentMessage(m) => Push(c, ws, m)
    case Response(m) => Push(c, ws, m)
    case Unknown => c
    case Provisioning(name, tier) =>
      if ws in Ids(c.nodes) then c.(nodes := PatchNode(c.nodes, ws, e))
      else c.(nodes := c.nodes + [NewNode(ws, |c.nodes| * 40, name, tier)])
    case _ => c.(nodes := PatchNode(c.nodes, ws, e))
  }

  /** What `nestNode` keeps across its request: the closure of its `catch` block. */
  datatype Pending = Pending(dragged: Id, oldParent: Option<Id>, edges: seq<Edge>)

  function Nest(c: State, d: Id, t: Option<Id>): State {
    c.(nodes := SetParent(c.nodes, d, t), edges := WithoutEdges(c.edges, d))
  }

  function PendingNest(c: State, d: Id): Pending {
    Pending(d, ParentOf(c.nodes, d), c.edges)
  }

  function Revert(c: State, p: Pending): State {
    c.(nodes := SetParent(c.nodes, p.dragged, p.oldParent), edges := p.edges)
  }

  function NodeFor(w: Workspace): Node {
    Node(w.id, w.x, w.y, w.data.parentId.Some?, w.data.(needsRestart := false))
  }

  function Hydrated(c: State, ws: seq<Workspace>): State {
    c.(nodes := seq(|ws|, i requires 0 <= i < |ws| => NodeFor(ws[i])), edges := [])
  }

  // ---- how the links of the list change

  lemma {:induction false} FindFirst(nodes: seq<Node>, id: Id)
    ensures Find(nodes, id).Some? <==> id in Ids(nodes)
    ensures Find(nodes, id).Some? ==> Find(nodes, id).value in nodes && Find(nodes, id).value.id == id
  {
    if nodes != [] {
      FindFirst(nodes[1..], id);
      if id in Ids(nodes) && nodes[0].id != id {
        var n :| n in nodes && n.id == id;
        assert n in nodes[1..];
      }
    }
  }

  lemma {:induction false} FindUnique(nodes: seq<Node>, n: Node)
    requires UniqueIds(nodes) && n in nodes
    ensures Find(nodes, n.id) == Some(n)
  {
    if nodes[0] != n {
      FindUnique(nodes[1..], n);
    }
  }

  /** The links in one membership fact. */
  lemma LinksAt(nodes: seq<Node>, id: Id)
    ensures id in LinksOf(nodes) <==> ParentOf(nodes, id).Some?
    ensures id in LinksOf(nodes) ==> LinksOf(nodes)[id] == ParentOf(nodes, id).value
  {
    FindFirst(nodes, id);
  }

  lemma LinksAre(nodes: seq<Node>, m: Links)
    requires forall id :: ParentOf(nodes, id) == if id in m then Some(m[id]) else None
    ensures LinksOf(nodes) == m
  {
    forall id ensures id in LinksOf(nodes) <==> id in m {
      LinksAt(nodes, id);
    }
  }

  /** An update that keeps every id keeps the order of the search. */
  lemma {:induction false} FindMapped(a: seq<Node>, b: seq<Node>, id: Id) returns (i: nat)
    requires |a| == |b| && forall k :: 0 <= k < |a| ==> a[k].id == b[k].id
    ensures id !in Ids(a) ==> Find(a, id).None? && Find(b, id).None?
    ensures id in Ids(a) ==> i < |a| && Find(a, id) == Some(a[i]) && Find(b, id) == Some(b[i])
  {
    i := 0;
    FindFirst(a, id);
    if a != [] && a[0].id != id {
      var k := FindMapped(a[1..], b[1..], id);
      i := k + 1;
      assert id in Ids(a) ==> id in Ids(a[1..]) by { FindFirst(a[1..], id); }
    }
  }

  lemma LinksOfSetParent(nodes: seq<Node>, d: Id, p: Option<Id>)
    ensures Ids(SetParent(nodes, d, p)) == Ids(nodes)
    ensures LinksOf(SetParent(nodes, d, p)) ==
            if d in Ids(nodes) then Relink(LinksOf(nodes), d, p) else LinksOf(nodes)
  {
    var b := SetParent(nodes, d, p);
    SameIds(nodes, b);
    forall id ensures ParentOf(b, id) == if id == d && d in Ids(nodes) then p else ParentOf(nodes, id) {
      ParentAfterSet(nodes, d, p, id);
    }
  }

  lemma ParentAfterSet(nodes: seq<Node>, d: Id, p: Option<Id>, id: Id)
    ensures ParentOf(SetParent(nodes, d, p), id) == if id == d && d in Ids(nodes) then p else ParentOf(nodes, id)
  {
    var i := FindMapped(nodes, SetParent(nodes, d, p), id);
    FindFirst(nodes, id);
  }

  lemma SameIds(a: seq<Node>, b: seq<Node>)
    requires |a| == |b| && forall k :: 0 <= k < |a| ==> a[k].id == b[k].id
    ensures Ids(a) == Ids(b)
  {
    forall id ensures id in Ids(a) <==> id in Ids(b) {
      if id in Ids(a) { var k :| 0 <= k < |a| && a[k].id == id; assert b[k] in b; }
      if id in Ids(b) { var k :| 0 <= k < |b| && b[k].id == id; assert a[k] in a; }
    }
  }

  lemma LinksOfPatched(nodes: seq<Node>, ws: Id, e: Event)
    ensures Ids(PatchNode(nodes, ws, e)) == Ids(nodes)
    ensures LinksOf(PatchNode(nodes, ws, e)) == LinksOf(nodes)
  {
    var b := PatchNode(nodes, ws, e);
    SameIds(nodes, b);
    forall id ensures ParentOf(b, id) == ParentOf(nodes, id) {
      var i := FindMapped(nodes, b, id);
    }
  }

  lemma {:induction false} FindAppend(nodes: seq<Node>, n: Node, id: Id)
    ensures Find(nodes + [n], id) ==
            if id in Ids(nodes) then Find(nodes, id) else if n.id == id then Some(n) else None
  {
    FindFirst(nodes, id);
    if nodes == [] {
      assert nodes + [n] == [n];
    } else {
      assert (nodes + [n])[1..] == nodes[1..] + [n];
      FindFirst(nodes[1..], id);
      FindAppend(nodes[1..], n, id);
    }
  }

  lemma LinksOfArrival(nodes: seq<Node>, n: Node)
    requires n.id !in Ids(nodes) && n.data.parentId.None?
    ensures Ids(nodes + [n]) == Ids(nodes) + {n.id}
    ensures LinksOf(nodes + [n]) == LinksOf(nodes)
  {
    assert forall m :: m in nodes + [n] <==> m in nodes || m == n;
    forall id ensures ParentOf(nodes + [n], id) == ParentOf(nodes, id) {
      FindAppend(nodes, n, id);
      FindFirst(nodes, id);
    }
    forall id ensures ParentOf(nodes + [n], id) ==
                      if id in LinksOf(nodes) then Some(LinksOf(nodes)[id]) else None {
      LinksAt(nodes, id);
    }
    LinksAre(nodes + [n], LinksOf(nodes));
  }

  lemma {:induction false} FindWithout(nodes: seq<Node>, x: Id, id: Id)
    ensures Find(Without(nodes, x), id) == if id == x then None else Find(nodes, id)
  {
    if nodes != [] { FindWithout(nodes[1..], x, id); }
  }

  lemma LinksOfRemoved(c: State, x: Id)
    ensures Ids(RemoveNode(c, x).nodes) == Ids(c.nodes) - {x}
    ensures LinksOf(RemoveNode(c, x).nodes) == Splice(LinksOf(c.nodes), x)
  {
    var w := Without(c.nodes, x);
    var b := RemoveNode(c, x).nodes;
    SameIds(w, b);
    forall id ensures id in Ids(w) <==> id in Ids(c.nodes) && id != x {
      FindWithout(c.nodes, x, id);
      FindFirst(w, id);
      FindFirst(c.nodes, id);
    }
    var m := Splice(LinksOf(c.nodes), x);
    LinksAt(c.nodes, x);
    forall id ensures ParentOf(b, id) == if id in m then Some(m[id]) else None {
      LinksAt(c.nodes, id);
      var i := FindMapped(w, b, id);
      FindWithout(c.nodes, x, id);
      FindFirst(w, id);
    }
    LinksAre(b, m);
  }
}
