/** The event-sourced task graph: the fold of its log, the status projection, the
    guard of every mutation, and the invariant every guarded event keeps
    (internal/kernel/task_graph.go). */
module TaskGraph {
  import opened Wrappers
  import opened Walks

  datatype Status = Proposed | Ready | Running | Waiting | Blocked | Completed | Failed | Cancelled

  /** `invocation` is empty until the node is bound to an agent invocation. */
  datatype Node = Node(id: Id, invocation: Id, title: string, status: Status, reason: string)

  datatype Graph = Graph(session: Id, nodes: seq<Node>, edges: seq<Edge>)

  datatype Event =
    | Created(gid: Id, session: Id)
    | NodeAdded(gid: Id, node: Node)
    | NodeUpdated(gid: Id, node: Node)
    | NodeTransitioned(gid: Id, node: Node)
    | EdgeAdded(gid: Id, edge: Edge)
    | EdgeRemoved(gid: Id, edge: Edge)

  datatype RunStatus = RunRunning | RunCompleted | RunFailed | RunOther

  predicate Terminal(s: Status) { s == Completed || s == Failed || s == Cancelled }

  predicate Mutable(s: Status) { s != Running && !Terminal(s) }

  predicate Dead(s: Status) { s == Failed || s == Cancelled }

  predicate TransitionAllowed(current: Status, next: Status) {
    if current == Ready then next == Running || next == Completed || next == Cancelled
    else if current == Running then next == Completed || next == Failed || next == Waiting || next == Cancelled
    else false
  }

  // ---------------------------------------------------------------- the fold

  /** Replaces every entry with the node's id, or appends the node. */
  function Upsert(nodes: seq<Node>, n: Node): (r: seq<Node>)
    ensures forall m :: m in r <==> m == n || (m in nodes && m.id != n.id)
  {
    var r :=
      if exists i :: 0 <= i < |nodes| && nodes[i].id == n.id
      then seq(|nodes|, i requires 0 <= i < |nodes| => if nodes[i].id == n.id then n else nodes[i])
      else nodes + [n];
    assert forall m | m in nodes && m.id != n.id :: m in r by {
      forall m | m in nodes && m.id != n.id ensures m in r {
        var i :| 0 <= i < |nodes| && nodes[i] == m;
        assert r[i] == m;
      }
    }
    assert n in r by {
      if i :| 0 <= i < |nodes| && nodes[i].id == n.id { assert r[i] == n; }
    }
    r
  }

  function WithoutEdge(es: seq<Edge>, e: Edge): (r: seq<Edge>)
    ensures forall f :: f in r <==> f in es && f != e
  {
    if es == [] then []
    else if es[0] == e then WithoutEdge(es[1..], e)
    else [es[0]] + WithoutEdge(es[1..], e)
  }

  type Graphs = map<Id, Graph>

  /** One event of the log; `None` is the "task graph event missing graph" error. */
  function Apply(gs: Graphs, ev: Event): Option<Graphs> {
    if ev.Created? then Some(gs[ev.gid := Graph(ev.session, [], [])])
    else if ev.gid !in gs then None
    else
      var g := gs[ev.gid];
      Some(gs[ev.gid :=
        match ev
        case EdgeAdded(_, e) => g.(edges := g.edges + [e])
        case EdgeRemoved(_, e) => g.(edges := WithoutEdge(g.edges, e))
        case _ => g.(nodes := Upsert(g.nodes, ev.node))])
  }

  function Fold(log: seq<Event>): Option<Graphs> {
    if log == [] then Some(map[])
    else
      match Fold(log[..|log| - 1])
      case None => None
      case Some(gs) => Apply(gs, log[|log| - 1])
  }

  // ---------------------------------------------------------- the projection

  function DeadStatus(nodes: seq<Node>, id: Id): Option<Status> {
    if nodes == [] then None
    else if nodes[0].id == id && Dead(nodes[0].status) then Some(nodes[0].status)
    else DeadStatus(nodes[1..], id)
  }

  /** The status of the first failed or cancelled predecessor, in edge order. */
  function FirstDead(nodes: seq<Node>, es: seq<Edge>, id: Id): Option<Status> {
    if es == [] then None
    else if es[0].to == id && DeadStatus(nodes, es[0].from).Some? then DeadStatus(nodes, es[0].from)
    else FirstDead(nodes, es[1..], id)
  }

  /** The edges scanned for a node: a node stored as blocked stops at its first one. */
  function Scanned(n: Node, es: seq<Edge>): seq<Edge> {
    if es == [] then []
    else if n.status == Blocked && es[0].to == n.id then [es[0]]
    else [es[0]] + Scanned(n, es[1..])
  }

  ghost predicate DeadPredecessor(g: Graph, id: Id) {
    exists e, m :: e in g.edges && e.to == id && m in g.nodes && m.id == e.from && Dead(m.status)
  }

  /** `reason` names the status of some failed or cancelled predecessor. */
  ghost predicate DeadReason(g: Graph, id: Id, reason: string) {
    exists e, m :: e in g.edges && e.to == id && m in g.nodes && m.id == e.from && Dead(m.status) && reason == Reason(m.status)
  }

  ghost predicate PredecessorsCompleted(g: Graph, id: Id) {
    forall e, m | e in g.edges && e.to == id && m in g.nodes && m.id == e.from :: m.status == Completed
  }

  function Reason(s: Status): string {
    if s == Failed then "dependency_failed" else "dependency_cancelled"
  }

  /** The node as every reader and every mutation sees it. */
  ghost function Project(g: Graph, n: Node): Node {
    if !Mutable(n.status) then n
    else
      match FirstDead(g.nodes, Scanned(n, g.edges), n.id)
      case Some(s) => n.(status := Blocked, reason := Reason(s))
      case None =>
        if n.status == Blocked then n
        else n.(status := if PredecessorsCompleted(g, n.id) then Ready else Waiting, reason := "")
  }

  ghost function ProjectAll(g: Graph): seq<Node> {
    seq(|g.nodes|, i requires 0 <= i < |g.nodes| => Project(g, g.nodes[i]))
  }

  ghost predicate Distinct(nodes: seq<Node>) {
    forall i, j | 0 <= i < j < |nodes| :: nodes[i].id != nodes[j].id
  }

  lemma {:induction false} DeadStatusMeans(nodes: seq<Node>, id: Id)
    ensures DeadStatus(nodes, id).Some? <==> exists m :: m in nodes && m.id == id && Dead(m.status)
    ensures DeadStatus(nodes, id).Some? ==>
              exists m :: m in nodes && m.id == id && Dead(m.status) && m.status == DeadStatus(nodes, id).value
  {
    if nodes != [] {
      DeadStatusMeans(nodes[1..], id);
      if nodes[0].id == id && Dead(nodes[0].status) { assert nodes[0] in nodes; }
    }
  }

  lemma {:induction false} FirstDeadMeans(nodes: seq<Node>, es: seq<Edge>, id: Id)
    ensures FirstDead(nodes, es, id).Some? <==>
            exists e, m :: e in es && e.to == id && m in nodes && m.id == e.from && Dead(m.status)
  {
    if es != [] {
      FirstDeadMeans(nodes, es[1..], id);
      DeadStatusMeans(nodes, es[0].from);
      if es[0].to == id && DeadStatus(nodes, es[0].from).Some? {
        assert es[0] in es;
      } else if e, m :| e in es && e.to == id && m in nodes && m.id == e.from && Dead(m.status) {
        assert e in es[1..];
      }
    }
  }

  lemma {:induction false} FirstDeadReason(g: Graph, es: seq<Edge>, id: Id)
    requires FirstDead(g.nodes, es, id).Some? && forall e | e in es :: e in g.edges
    ensures DeadReason(g, id, Reason(FirstDead(g.nodes, es, id).value))
  {
    if es[0].to == id && DeadStatus(g.nodes, es[0].from).Some? {
      DeadStatusMeans(g.nodes, es[0].from);
      assert es[0] in g.edges;
    } else {
      FirstDeadReason(g, es[1..], id);
    }
  }

  lemma {:induction false} ScannedAll(n: Node, es: seq<Edge>)
    ensures forall e | e in Scanned(n, es) :: e in es
    ensures n.status != Blocked ==> Scanned(n, es) == es
  {
    if es != [] { ScannedAll(n, es[1..]); }
  }

  /** The projected status in terms of the graph alone. */
  lemma ProjectedStatus(g: Graph, n: Node)
    ensures !Mutable(n.status) ==> Project(g, n) == n
    ensures Mutable(n.status) ==> Mutable(Project(g, n).status)
    ensures Mutable(n.status) ==> (Project(g, n).status == Blocked <==> n.status == Blocked || DeadPredecessor(g, n.id))
    ensures Mutable(n.status) ==> (Project(g, n).status == Ready <==>
              n.status != Blocked && !DeadPredecessor(g, n.id) && PredecessorsCompleted(g, n.id))
    ensures Project(g, n).id == n.id && Project(g, n).invocation == n.invocation && Project(g, n).title == n.title
  {
    ScannedAll(n, g.edges);
    FirstDeadMeans(g.nodes, g.edges, n.id);
    FirstDeadMeans(g.nodes, Scanned(n, g.edges), n.id);
  }

  /** A node shown blocked has the reason of a dead predecessor, or its stored one. */
  lemma ProjectedReason(g: Graph, n: Node)
    requires Mutable(n.status) && Project(g, n).status == Blocked
    ensures Project(g, n) == n || DeadReason(g, n.id, Project(g, n).reason)
  {
    ScannedAll(n, g.edges);
    if FirstDead(g.nodes, Scanned(n, g.edges), n.id).Some? { FirstDeadReason(g, Scanned(n, g.edges), n.id); }
  }

  // ------------------------------------------------------------- the guards

  ghost predicate InvocationUnused(gs: Graphs, inv: Id) {
    forall gid, n | gid in gs && n in gs[gid].nodes :: n.invocation != inv
  }

  /** What a title update may write: the projected node with a new title. */
  ghost predicate IsUpdate(g: Graph, n: Node, node: Node) {
    Mutable(n.status) && node == Project(g, n).(title := node.title)
  }

  ghost predicate IsBinding(gs: Graphs, g: Graph, n: Node, node: Node) {
    && Project(g, n).status == Ready && n.invocation == ""
    && node.invocation != "" && InvocationUnused(gs, node.invocation)
    && node == Project(g, n).(invocation := node.invocation)
  }

  ghost predicate IsTransition(g: Graph, n: Node, node: Node) {
    && TransitionAllowed(Project(g, n).status, node.status)
    && node == Project(g, n).(status := node.status, reason := node.reason)
  }

  /** What an invocation run may write: it ignores dependencies. */
  ghost predicate IsReduction(n: Node, node: Node) {
    && n.invocation != "" && !Terminal(n.status)
    && (node == n.(status := Running, reason := "")
        || node == n.(status := Completed, reason := "")
        || node == n.(status := Failed, reason := "invocation_failed"))
  }

  ghost predicate EndpointsMutable(g: Graph, e: Edge) {
    exists a, b :: a in g.nodes && b in g.nodes && a.id == e.from && b.id == e.to
                   && Mutable(a.status) && Mutable(b.status)
  }

  /** The guard under which one of the kernel's methods appends `ev`. */
  ghost predicate Allowed(gs: Graphs, ev: Event) {
    if ev.Created? then ev.gid !in gs
    else
      && ev.gid in gs
      && var g := gs[ev.gid];
         match ev
         case NodeAdded(_, node) =>
           node == Node(node.id, "", node.title, Proposed, "") && forall m | m in g.nodes :: m.id != node.id
         case NodeUpdated(_, node) =>
           exists n :: n in g.nodes && (IsUpdate(g, n, node) || IsBinding(gs, g, n, node))
         case NodeTransitioned(_, node) =>
           exists n :: n in g.nodes && (IsTransition(g, n, node) || IsReduction(n, node))
         case EdgeAdded(_, e) =>
           e.from != "" && e.to != "" && e.from != e.to && EndpointsMutable(g, e) && e !in g.edges && !Cyclic(g.edges + [e])
         case EdgeRemoved(_, e) => EndpointsMutable(g, e) && e in g.edges
  }

  /** The logs the kernel can produce. */
  ghost predicate Legal(log: seq<Event>) {
    log == [] ||
    (var before := log[..|log| - 1];
     Legal(before) && Fold(before).Some? && Allowed(Fold(before).value, log[|log| - 1]))
  }

  // --------------------------------------------------------- what a graph keeps

  ghost predicate DistinctEdges(es: seq<Edge>) {
    forall i, j | 0 <= i < j < |es| :: es[i] != es[j]
  }

  ghost predicate JoinsNodes(g: Graph) {
    forall e | e in g.edges ::
      (exists a :: a in g.nodes && a.id == e.from) && (exists b :: b in g.nodes && b.id == e.to)
  }

  ghost predicate GraphInv(g: Graph) {
    && Distinct(g.nodes)
    && DistinctEdges(g.edges) && JoinsNodes(g) && !Cyclic(g.edges)
    && (forall n | n in g.nodes && n.status == Blocked :: DeadReason(g, n.id, n.reason))
    && (forall n | n in g.nodes && n.invocation == "" && !Mutable(n.status) :: PredecessorsCompleted(g, n.id))
  }

  ghost predicate BoundTo(gs: Graphs, gid: Id, n: Node, inv: Id) {
    gid in gs && n in gs[gid].nodes && n.invocation == inv
  }

  /** No invocation is bound to two nodes. */
  ghost predicate InvocationsUnique(gs: Graphs) {
    forall inv, a, b, m, n | BoundTo(gs, a, m, inv) && BoundTo(gs, b, n, inv) && inv != "" :: a == b && m == n
  }

  ghost predicate Inv(gs: Graphs) {
    (forall gid | gid in gs :: GraphInv(gs[gid])) && InvocationsUnique(gs)
  }

  lemma SameIdSameNode(nodes: seq<Node>, m: Node, n: Node)
    requires Distinct(nodes) && m in nodes && n in nodes && m.id == n.id
    ensures m == n
  {
    var i :| 0 <= i < |nodes| && nodes[i] == m;
    var j :| 0 <= j < |nodes| && nodes[j] == n;
  }

  /** Overwriting a non-terminal node keeps the invariant. */
  lemma OverwriteKeeps(g: Graph, n: Node, node: Node)
    requires GraphInv(g) && n in g.nodes && !Terminal(n.status) && node.id == n.id
    requires node.status == Blocked ==> DeadReason(g, n.id, node.reason)
    requires node.invocation == "" && !Mutable(node.status) ==> PredecessorsCompleted(g, n.id)
    ensures GraphInv(g.(nodes := Upsert(g.nodes, node)))
  {
    var h := g.(nodes := Upsert(g.nodes, node));
    forall m | m in g.nodes && m.id == n.id ensures m == n { SameIdSameNode(g.nodes, m, n); }
    forall e | e in h.edges
      ensures (exists a :: a in h.nodes && a.id == e.from) && (exists b :: b in h.nodes && b.id == e.to)
    {
      var a :| a in g.nodes && a.id == e.from;
      var b :| b in g.nodes && b.id == e.to;
      assert (if a.id == n.id then node else a) in h.nodes;
      assert (if b.id == n.id then node else b) in h.nodes;
    }
    forall x | x in h.nodes && x.status == Blocked ensures DeadReason(h, x.id, x.reason) {
      var e, m :| e in g.edges && e.to == x.id && m in g.nodes && m.id == e.from && Dead(m.status) && x.reason == Reason(m.status);
      assert m in h.nodes;
    }
    forall x | x in h.nodes && x.invocation == "" && !Mutable(x.status) ensures PredecessorsCompleted(h, x.id) {
      forall e, m | e in h.edges && e.to == x.id && m in h.nodes && m.id == e.from ensures m.status == Completed {
        assert PredecessorsCompleted(g, x.id);
      }
    }
  }

  lemma AddNodeKeeps(g: Graph, node: Node)
    requires GraphInv(g) && node.status == Proposed && forall m | m in g.nodes :: m.id != node.id
    ensures GraphInv(g.(nodes := Upsert(g.nodes, node)))
  {
    var h := g.(nodes := Upsert(g.nodes, node));
    assert h.nodes == g.nodes + [node];
    forall x | x in h.nodes && x.status == Blocked ensures DeadReason(h, x.id, x.reason) {
      var e, m :| e in g.edges && e.to == x.id && m in g.nodes && m.id == e.from && Dead(m.status) && x.reason == Reason(m.status);
      assert m in h.nodes;
    }
    forall e, m | e in h.edges && m in h.nodes && m.id == e.from ensures m in g.nodes {
      var a :| a in g.nodes && a.id == e.from;
    }
  }

  lemma AddEdgeKeeps(g: Graph, e: Edge)
    requires GraphInv(g) && EndpointsMutable(g, e) && e !in g.edges && !Cyclic(g.edges + [e])
    ensures GraphInv(g.(edges := g.edges + [e]))
  {
    var h := g.(edges := g.edges + [e]);
    forall n | n in h.nodes && n.status == Blocked ensures DeadReason(h, n.id, n.reason) {
      var f, m :| f in g.edges && f.to == n.id && m in g.nodes && m.id == f.from && Dead(m.status) && n.reason == Reason(m.status);
      assert f in h.edges;
    }
    forall n | n in h.nodes && n.invocation == "" && !Mutable(n.status) ensures PredecessorsCompleted(h, n.id) {
      var b :| b in g.nodes && b.id == e.to && Mutable(b.status);
      if n.id == e.to { SameIdSameNode(g.nodes, n, b); }
    }
  }

  lemma {:induction false} WithoutEdgeDistinct(es: seq<Edge>, e: Edge)
    requires DistinctEdges(es)
    ensures DistinctEdges(WithoutEdge(es, e))
  {
    if es != [] {
      WithoutEdgeDistinct(es[1..], e);
      assert es[0] !in es[1..];
    }
  }

  lemma RemoveEdgeKeeps(g: Graph, e: Edge)
    requires GraphInv(g) && EndpointsMutable(g, e)
    ensures GraphInv(g.(edges := WithoutEdge(g.edges, e)))
  {
    var h := g.(edges := WithoutEdge(g.edges, e));
    WithoutEdgeDistinct(g.edges, e);
    FewerEdgesStayAcyclic(g.edges, h.edges);
    forall n | n in h.nodes && n.status == Blocked ensures DeadReason(h, n.id, n.reason) {
      var f, m :| f in g.edges && f.to == n.id && m in g.nodes && m.id == f.from && Dead(m.status) && n.reason == Reason(m.status);
      var a :| a in g.nodes && a.id == e.from && Mutable(a.status);
      if f == e { SameIdSameNode(g.nodes, a, m); }
      assert f in h.edges;
    }
  }

  /** Every way to overwrite a node, seen as one. */
  ghost predicate IsWrite(gs: Graphs, g: Graph, n: Node, node: Node) {
    IsUpdate(g, n, node) || IsBinding(gs, g, n, node) || IsTransition(g, n, node) || IsReduction(n, node)
  }

  lemma WriteKeepsGraph(gs: Graphs, g: Graph, n: Node, node: Node)
    requires GraphInv(g) && n in g.nodes && IsWrite(gs, g, n, node)
    ensures GraphInv(g.(nodes := Upsert(g.nodes, node)))
  {
    ProjectedStatus(g, n);
    if node.status == Blocked { ProjectedReason(g, n); }
    OverwriteKeeps(g, n, node);
  }

  lemma OverwriteKeepsBindings(gs: Graphs, gid: Id, n: Node, node: Node)
    requires InvocationsUnique(gs) && gid in gs && n in gs[gid].nodes && node.id == n.id
    requires node.invocation == n.invocation || InvocationUnused(gs, node.invocation)
    ensures InvocationsUnique(gs[gid := gs[gid].(nodes := Upsert(gs[gid].nodes, node))])
  {
    var hs := gs[gid := gs[gid].(nodes := Upsert(gs[gid].nodes, node))];
    forall inv, a, b, x, y | BoundTo(hs, a, x, inv) && BoundTo(hs, b, y, inv) && inv != ""
      ensures a == b && x == y
    {
      var x0 := if a == gid && x == node then n else x;
      var y0 := if b == gid && y == node then n else y;
      assert x0 == x ==> BoundTo(gs, a, x, inv);
      assert y0 == y ==> BoundTo(gs, b, y, inv);
      if node.invocation == n.invocation {
        assert BoundTo(gs, a, x0, inv) && BoundTo(gs, b, y0, inv);
      }
    }
  }

  lemma WriteKeepsBindings(gs: Graphs, gid: Id, n: Node, node: Node)
    requires InvocationsUnique(gs) && gid in gs && n in gs[gid].nodes && IsWrite(gs, gs[gid], n, node)
    ensures InvocationsUnique(gs[gid := gs[gid].(nodes := Upsert(gs[gid].nodes, node))])
  {
    ProjectedStatus(gs[gid], n);
    OverwriteKeepsBindings(gs, gid, n, node);
  }

  lemma StepKeepsGraph(gs: Graphs, ev: Event)
    requires Inv(gs) && Allowed(gs, ev) && !ev.Created?
    ensures Apply(gs, ev).Some? && GraphInv(Apply(gs, ev).value[ev.gid])
  {
    var g := gs[ev.gid];
    match ev {
      case NodeAdded(_, node) => AddNodeKeeps(g, node);
      case EdgeAdded(_, e) => AddEdgeKeeps(g, e);
      case EdgeRemoved(_, e) => RemoveEdgeKeeps(g, e);
      case NodeUpdated(_, node) =>
        var n :| n in g.nodes && IsWrite(gs, g, n, node);
        WriteKeepsGraph(gs, g, n, node);
      case NodeTransitioned(_, node) =>
        var n :| n in g.nodes && IsWrite(gs, g, n, node);
        WriteKeepsGraph(gs, g, n, node);
    }
  }

  lemma SameBindings(gs: Graphs, hs: Graphs)
    requires InvocationsUnique(gs)
    requires forall inv, a, n | BoundTo(hs, a, n, inv) && inv != "" :: BoundTo(gs, a, n, inv)
    ensures InvocationsUnique(hs)
  {
  }

  lemma StepKeepsBindings(gs: Graphs, ev: Event)
    requires Inv(gs) && Allowed(gs, ev)
    ensures Apply(gs, ev).Some? && InvocationsUnique(Apply(gs, ev).value)
  {
    if ev.NodeUpdated? || ev.NodeTransitioned? {
      var n :| n in gs[ev.gid].nodes && IsWrite(gs, gs[ev.gid], n, ev.node);
      WriteKeepsBindings(gs, ev.gid, n, ev.node);
    } else {
      SameBindings(gs, Apply(gs, ev).value);
    }
  }

  lemma StepKeeps(gs: Graphs, ev: Event)
    requires Inv(gs) && Allowed(gs, ev)
    ensures Apply(gs, ev).Some? && Inv(Apply(gs, ev).value)
  {
    StepKeepsBindings(gs, ev);
    if !ev.Created? {
      StepKeepsGraph(gs, ev);
    } else {
      assert GraphInv(Graph(ev.session, [], [])) by {
        if Cyclic([]) { CycleStartsAtEdge([]); }
      }
    }
  }

  /** Every log the kernel can produce folds without error into graphs that keep
      the invariant. */
  lemma {:induction false} LegalLogsAreSound(log: seq<Event>)
    requires Legal(log)
    ensures Fold(log).Some? && Inv(Fold(log).value)
  {
    if log != [] {
      LegalLogsAreSound(log[..|log| - 1]);
      StepKeeps(Fold(log[..|log| - 1]).value, log[|log| - 1]);
    }
  }
}
