/** What holds of every log the task graph kernel can produce. */
module TaskGraphTheorems {
  import opened Wrappers
  import opened Walks
  import opened TaskGraph

  /** The graphs a legal log folds to. */
  ghost function State(log: seq<Event>): (gs: Graphs)
    requires Legal(log)
    ensures Fold(log) == Some(gs) && Inv(gs)
  {
    LegalLogsAreSound(log);
    Fold(log).value
  }

  lemma {:induction false} LegalPrefix(log: seq<Event>, k: nat)
    requires Legal(log) && k <= |log|
    ensures Legal(log[..k])
  {
    if k == |log| {
      assert log[..k] == log;
    } else {
      LegalPrefix(log[..|log| - 1], k);
      assert log[..|log| - 1][..k] == log[..k];
    }
  }

  /** In every reachable state the dependency relation is acyclic, lists no edge
      twice and joins only existing nodes. */
  lemma DependenciesFormADag(log: seq<Event>, gid: Id)
    requires Legal(log) && gid in State(log)
    ensures var g := State(log)[gid]; !Cyclic(g.edges) && DistinctEdges(g.edges) && JoinsNodes(g) && Distinct(g.nodes)
  {
    assert GraphInv(State(log)[gid]);
  }

  /** The status a mutable node is shown with, computed from its dependencies alone. */
  ghost function FromDependencies(g: Graph, id: Id): Status {
    if DeadPredecessor(g, id) then Blocked else if PredecessorsCompleted(g, id) then Ready else Waiting
  }

  /** The status a mutable node is shown with never depends on the stored one, although
      updates write shown statuses back. */
  lemma ShownStatusFromDependencies(log: seq<Event>, gid: Id, n: Node)
    requires Legal(log) && gid in State(log) && n in State(log)[gid].nodes
    ensures var g := State(log)[gid];
            Project(g, n).status == if Mutable(n.status) then FromDependencies(g, n.id) else n.status
  {
    var g := State(log)[gid];
    assert GraphInv(g);
    ProjectedStatus(g, n);
  }

  /** The node as it was when it was added, with nothing written back. */
  function Unstored(n: Node): Node { n.(status := Proposed, reason := "") }

  /** A node stored as blocked is scanned only up to its first dependency. If that
      predecessor is not dead, the stored reason stays, and it must be the one that the
      first dead predecessor gives now. */
  ghost predicate ReasonIsCurrent(g: Graph, n: Node) {
    n.status == Blocked && FirstDead(g.nodes, Scanned(n, g.edges), n.id).None? ==>
      var first := FirstDead(g.nodes, g.edges, n.id); first.Some? && n.reason == Reason(first.value)
  }

  /** The whole shown node is independent of what was stored if and only if the stored
      reason is current. */
  lemma StoredStateHiddenIff(log: seq<Event>, gid: Id, n: Node)
    requires Legal(log) && gid in State(log) && n in State(log)[gid].nodes && Mutable(n.status)
    ensures var g := State(log)[gid];
            Project(g, n) == Project(g, Unstored(n)) <==> ReasonIsCurrent(g, n)
  {
    HiddenIff(State(log)[gid], n);
  }

  lemma HiddenIff(g: Graph, n: Node)
    requires GraphInv(g) && n in g.nodes && Mutable(n.status)
    ensures Project(g, n) == Project(g, Unstored(n)) <==> ReasonIsCurrent(g, n)
  {
    ScannedAll(n, g.edges);
    ScannedAll(Unstored(n), g.edges);
    if n.status == Blocked {
      RescanBlocked(g.nodes, g.edges, Unstored(n), n);
      FirstDeadMeans(g.nodes, g.edges, n.id);
    }
  }

  /** All dead predecessors of the node ended the same way. */
  ghost predicate DeathsAgree(g: Graph, id: Id) {
    forall e, f, m, o | e in g.edges && f in g.edges && e.to == id && f.to == id && m in g.nodes && o in g.nodes
      && m.id == e.from && o.id == f.from && Dead(m.status) && Dead(o.status) :: m.status == o.status
  }

  /** A stale reason needs a failed and a cancelled predecessor. */
  lemma AgreeingDeathsHideStoredState(log: seq<Event>, gid: Id, n: Node)
    requires Legal(log) && gid in State(log) && n in State(log)[gid].nodes && Mutable(n.status)
    requires DeathsAgree(State(log)[gid], n.id)
    ensures Project(State(log)[gid], n) == Project(State(log)[gid], Unstored(n))
  {
    var g := State(log)[gid];
    HiddenIff(g, n);
    AgreedReason(g, n);
  }

  lemma AgreedReason(g: Graph, n: Node)
    requires GraphInv(g) && n in g.nodes && DeathsAgree(g, n.id)
    ensures ReasonIsCurrent(g, n)
  {
    if n.status == Blocked {
      FirstDeadMeans(g.nodes, g.edges, n.id);
      FirstDeadReason(g, g.edges, n.id);
      OneReason(g, n.id, n.reason, Reason(FirstDead(g.nodes, g.edges, n.id).value));
    }
  }

  lemma OneReason(g: Graph, id: Id, r: string, t: string)
    requires DeathsAgree(g, id) && DeadReason(g, id, r) && DeadReason(g, id, t)
    ensures r == t
  {
    var e, m :| e in g.edges && e.to == id && m in g.nodes && m.id == e.from && Dead(m.status) && r == Reason(m.status);
    var f, o :| f in g.edges && f.to == id && o in g.nodes && o.id == f.from && Dead(o.status) && t == Reason(o.status);
  }

  /** A node is shown blocked exactly when it is neither running nor terminal and
      some predecessor failed or was cancelled. */
  lemma BlockedExactly(log: seq<Event>, gid: Id, n: Node)
    requires Legal(log) && gid in State(log) && n in State(log)[gid].nodes
    ensures var g := State(log)[gid];
            Project(g, n).status == Blocked <==>
            n.status != Running && !Terminal(n.status) && DeadPredecessor(g, n.id)
  {
    ShownStatusFromDependencies(log, gid, n);
    assert GraphInv(State(log)[gid]);
  }

  /** Same ids, and the same failed and cancelled nodes, position by position. */
  ghost predicate SameDead(a: seq<Node>, b: seq<Node>) {
    |a| == |b| && forall i | 0 <= i < |a| ::
      a[i].id == b[i].id && Dead(a[i].status) == Dead(b[i].status) && (Dead(a[i].status) ==> a[i].status == b[i].status)
  }

  lemma {:induction false} SameDeadStatus(a: seq<Node>, b: seq<Node>, id: Id)
    requires SameDead(a, b)
    ensures DeadStatus(a, id) == DeadStatus(b, id)
  {
    if a != [] { SameDeadStatus(a[1..], b[1..], id); }
  }

  lemma {:induction false} SameFirstDead(a: seq<Node>, b: seq<Node>, es: seq<Edge>, id: Id)
    requires SameDead(a, b)
    ensures FirstDead(a, es, id) == FirstDead(b, es, id)
  {
    if es != [] {
      SameDeadStatus(a, b, es[0].from);
      SameFirstDead(a, b, es[1..], id);
    }
  }

  /** A node that became blocked is scanned less far next time, to the same effect. */
  lemma {:induction false} RescanBlocked(nodes: seq<Node>, es: seq<Edge>, n: Node, b: Node)
    requires b.id == n.id && b.status == Blocked
    ensures FirstDead(nodes, Scanned(b, es), n.id).Some? ==>
              FirstDead(nodes, Scanned(b, es), n.id) == FirstDead(nodes, Scanned(n, es), n.id)
  {
    if es != [] { RescanBlocked(nodes, es[1..], n, b); }
  }

  /** Binding and transitions project an already projected graph once more, which
      changes nothing. */
  lemma ProjectingTwice(g: Graph)
    ensures ProjectAll(g.(nodes := ProjectAll(g))) == ProjectAll(g)
  {
    var h := g.(nodes := ProjectAll(g));
    forall i | 0 <= i < |g.nodes|
      ensures SameDead(h.nodes, g.nodes) && h.nodes[i] == Project(g, g.nodes[i])
    {
      forall k | 0 <= k < |g.nodes| ensures h.nodes[k].id == g.nodes[k].id { ProjectedStatus(g, g.nodes[k]); }
    }
    forall i | 0 <= i < |g.nodes| ensures Project(h, h.nodes[i]) == h.nodes[i] {
      var n, p := g.nodes[i], h.nodes[i];
      SameFirstDead(h.nodes, g.nodes, Scanned(p, g.edges), n.id);
      ScannedAll(n, g.edges);
      ScannedAll(p, g.edges);
      ProjectedStatus(g, n);
      if p.status == Blocked { RescanBlocked(g.nodes, g.edges, n, p); }
      SameCompletion(g, h, n.id);
    }
  }

  lemma SameCompletion(g: Graph, h: Graph, id: Id)
    requires h == g.(nodes := ProjectAll(g))
    ensures PredecessorsCompleted(h, id) == PredecessorsCompleted(g, id)
  {
    forall k | 0 <= k < |g.nodes| ensures CompletedAlike(g.nodes[k], h.nodes[k]) {
      ProjectedStatus(g, g.nodes[k]);
    }
    CompletionCarries(g, h, id);
    CompletionCarries(h, g, id);
  }

  ghost predicate CompletedAlike(m: Node, n: Node) {
    m.id == n.id && (m.status == Completed <==> n.status == Completed)
  }

  lemma CompletionCarries(g: Graph, h: Graph, id: Id)
    requires h.edges == g.edges && |h.nodes| == |g.nodes|
    requires forall k | 0 <= k < |g.nodes| :: CompletedAlike(g.nodes[k], h.nodes[k])
    ensures PredecessorsCompleted(g, id) ==> PredecessorsCompleted(h, id)
  {
    if PredecessorsCompleted(g, id) {
      forall e, m | e in h.edges && e.to == id && m in h.nodes && m.id == e.from ensures m.status == Completed {
        var k :| 0 <= k < |h.nodes| && h.nodes[k] == m;
        assert CompletedAlike(g.nodes[k], m) && g.nodes[k] in g.nodes;
      }
    }
  }

  /** A node never bound to an invocation only runs or ends after every one of its
      predecessors completed. */
  lemma UnboundNodesRespectDependencies(log: seq<Event>, gid: Id, n: Node)
    requires Legal(log) && gid in State(log) && n in State(log)[gid].nodes
    requires n.invocation == "" && (n.status == Running || Terminal(n.status))
    ensures PredecessorsCompleted(State(log)[gid], n.id)
  {
    assert GraphInv(State(log)[gid]);
  }

  lemma Extend(log: seq<Event>, ev: Event)
    requires Legal(log) && Allowed(State(log), ev)
    ensures Legal(log + [ev]) && Fold(log + [ev]) == Apply(State(log), ev)
  {
    assert (log + [ev])[..|log|] == log;
  }

  /** Runs started for bound nodes ignore dependencies, so the claim above fails for
      them as soon as a dependency is added to a bound node: from then on the
      next event can be that node running ahead of an unfinished predecessor. */
  lemma EdgeIntoBoundNodeBreaksOrder(log: seq<Event>, gid: Id, e: Edge, b: Node)
    requires Legal(log) && gid in State(log) && Allowed(State(log), EdgeAdded(gid, e))
    requires b in State(log)[gid].nodes && b.id == e.to && b.invocation != ""
    ensures var running := b.(status := Running, reason := "");
            var later := log + [EdgeAdded(gid, e)] + [NodeTransitioned(gid, running)];
            Legal(later) && gid in State(later) && running in State(later)[gid].nodes
            && !PredecessorsCompleted(State(later)[gid], b.id)
  {
    var running := b.(status := Running, reason := "");
    var g := State(log)[gid];
    assert GraphInv(g);
    var a, b' :| a in g.nodes && b' in g.nodes && a.id == e.from && b'.id == e.to
                 && Mutable(a.status) && Mutable(b'.status);
    SameIdSameNode(g.nodes, b, b');
    var mid := log + [EdgeAdded(gid, e)];
    Extend(log, EdgeAdded(gid, e));
    assert State(mid)[gid] == g.(edges := g.edges + [e]);
    assert IsReduction(b, running);
    Extend(mid, NodeTransitioned(gid, running));
    var h := State(mid + [NodeTransitioned(gid, running)])[gid];
    assert h.edges == g.edges + [e] && h.nodes == Upsert(g.nodes, running);
    assert e in h.edges && a in h.nodes && running in h.nodes;
  }

  /** No dependency was ever added to a node already bound to an invocation. */
  ghost predicate NoEdgeIntoBoundNode(log: seq<Event>)
    requires Legal(log)
  {
    log == [] ||
    (var before := log[..|log| - 1];
     var ev := log[|log| - 1];
     && NoEdgeIntoBoundNode(before)
     && (ev.EdgeAdded? ==> forall b | b in State(before)[ev.gid].nodes && b.id == ev.edge.to :: b.invocation == ""))
  }

  ghost predicate OrderKept(g: Graph) {
    forall n | n in g.nodes && (n.invocation != "" || !Mutable(n.status)) :: PredecessorsCompleted(g, n.id)
  }

  lemma WriteFacts(gs: Graphs, g: Graph, n: Node, node: Node)
    requires IsWrite(gs, g, n, node)
    ensures node.id == n.id && !Terminal(n.status)
    ensures node.invocation == n.invocation || Project(g, n).status == Ready
    ensures !Mutable(node.status) ==> n.invocation != "" || n.status == Running || Project(g, n).status == Ready
  {
    ProjectedStatus(g, n);
  }

  lemma OverwriteKeepsOrder(g: Graph, n: Node, node: Node)
    requires GraphInv(g) && OrderKept(g) && n in g.nodes && node.id == n.id && !Terminal(n.status)
    requires node.invocation != "" || !Mutable(node.status) ==> PredecessorsCompleted(g, n.id)
    ensures OrderKept(g.(nodes := Upsert(g.nodes, node)))
  {
    var h := g.(nodes := Upsert(g.nodes, node));
    forall m | m in g.nodes && m.id == n.id ensures m == n { SameIdSameNode(g.nodes, m, n); }
    forall x | x in h.nodes && (x.invocation != "" || !Mutable(x.status)) ensures PredecessorsCompleted(h, x.id) {
      assert PredecessorsCompleted(g, x.id);
    }
  }

  lemma AddNodeKeepsOrder(gs: Graphs, gid: Id, node: Node)
    requires Inv(gs) && Allowed(gs, NodeAdded(gid, node)) && OrderKept(gs[gid])
    ensures OrderKept(gs[gid].(nodes := Upsert(gs[gid].nodes, node)))
  {
    var g := gs[gid];
    assert GraphInv(g);
    var h := g.(nodes := Upsert(g.nodes, node));
    forall e, m | e in h.edges && m in h.nodes && m.id == e.from ensures m in g.nodes {
      var a :| a in g.nodes && a.id == e.from;
    }
  }

  lemma AddEdgeKeepsOrder(gs: Graphs, gid: Id, e: Edge)
    requires Inv(gs) && Allowed(gs, EdgeAdded(gid, e)) && OrderKept(gs[gid])
    requires forall b | b in gs[gid].nodes && b.id == e.to :: b.invocation == ""
    ensures OrderKept(gs[gid].(edges := gs[gid].edges + [e]))
  {
    var g := gs[gid];
    assert GraphInv(g);
    var b :| b in g.nodes && b.id == e.to && Mutable(b.status);
    forall n | n in g.nodes && n.id == e.to ensures n == b { SameIdSameNode(g.nodes, n, b); }
  }

  lemma StepKeepsOrder(gs: Graphs, ev: Event)
    requires Inv(gs) && Allowed(gs, ev) && !ev.Created? && OrderKept(gs[ev.gid])
    requires ev.EdgeAdded? ==> forall b | b in gs[ev.gid].nodes && b.id == ev.edge.to :: b.invocation == ""
    ensures OrderKept(Apply(gs, ev).value[ev.gid])
  {
    var g := gs[ev.gid];
    assert GraphInv(g);
    match ev {
      case NodeAdded(_, node) => AddNodeKeepsOrder(gs, ev.gid, node);
      case EdgeAdded(_, e) => AddEdgeKeepsOrder(gs, ev.gid, e);
      case EdgeRemoved(_, e) =>
      case NodeUpdated(_, node) =>
        var n :| n in g.nodes && IsWrite(gs, g, n, node);
        WriteFacts(gs, g, n, node);
        ProjectedStatus(g, n);
        OverwriteKeepsOrder(g, n, node);
      case NodeTransitioned(_, node) =>
        var n :| n in g.nodes && IsWrite(gs, g, n, node);
        WriteFacts(gs, g, n, node);
        ProjectedStatus(g, n);
        OverwriteKeepsOrder(g, n, node);
    }
  }

  /** As long as no dependency is added to a bound node, every running or finished
      node, bound or not, has only completed predecessors. */
  lemma {:induction false} OrderKeptWithoutLateEdges(log: seq<Event>, gid: Id, n: Node)
    requires Legal(log) && NoEdgeIntoBoundNode(log)
    requires gid in State(log) && n in State(log)[gid].nodes && (n.status == Running || Terminal(n.status))
    ensures PredecessorsCompleted(State(log)[gid], n.id)
  {
    AllOrdersKept(log);
  }

  lemma {:induction false} AllOrdersKept(log: seq<Event>)
    requires Legal(log) && NoEdgeIntoBoundNode(log)
    ensures forall gid | gid in State(log) :: OrderKept(State(log)[gid])
  {
    if log != [] {
      var before, ev := log[..|log| - 1], log[|log| - 1];
      AllOrdersKept(before);
      assert Apply(State(before), ev) == Some(State(log));
      if !ev.Created? { StepKeepsOrder(State(before), ev); }
      forall gid | gid in State(log) ensures OrderKept(State(log)[gid]) {
        if gid != ev.gid { assert State(log)[gid] == State(before)[gid]; }
      }
    }
  }

  lemma AddNode(log: seq<Event>, gid: Id, id: Id) returns (later: seq<Event>)
    requires Legal(log) && gid in State(log) && forall m | m in State(log)[gid].nodes :: m.id != id
    ensures Legal(later)
    ensures var g := State(log)[gid];
            State(later) == State(log)[gid := g.(nodes := g.nodes + [Node(id, "", "", Proposed, "")])]
  {
    later := log + [NodeAdded(gid, Node(id, "", "", Proposed, ""))];
    Extend(log, later[|log|]);
  }

  lemma NodesAndBinding() returns (log: seq<Event>)
    ensures Legal(log)
    ensures State(log) == map["g" := Graph("s", [Node("a", "i", "", Ready, ""), Node("b", "", "", Proposed, "")], [])]
  {
    Extend([], Created("g", "s"));
    var l1 := AddNode([] + [Created("g", "s")], "g", "a");
    var l2 := AddNode(l1, "g", "b");
    var g := State(l2)["g"];
    assert g.nodes == [Node("a", "", "", Proposed, ""), Node("b", "", "", Proposed, "")] && g.edges == [];
    log := BindFirst(l2, g);
  }

  lemma BindFirst(log: seq<Event>, g: Graph) returns (later: seq<Event>)
    requires Legal(log) && State(log) == map["g" := g] && g.edges == []
    requires g.nodes == [Node("a", "", "", Proposed, ""), Node("b", "", "", Proposed, "")]
    ensures Legal(later)
    ensures State(later) == map["g" := g.(nodes := [Node("a", "i", "", Ready, ""), g.nodes[1]])]
  {
    var a1 := Node("a", "i", "", Ready, "");
    ProjectedStatus(g, g.nodes[0]);
    assert g.nodes[0] in g.nodes && IsBinding(State(log), g, g.nodes[0], a1);
    later := log + [NodeUpdated("g", a1)];
    Extend(log, NodeUpdated("g", a1));
    assert Upsert(g.nodes, a1) == [a1, g.nodes[1]];
  }

  /** A concrete log in which a bound node runs ahead of its predecessor. */
  lemma BoundNodesMayIgnoreDependencies() returns (log: seq<Event>, n: Node)
    ensures Legal(log) && "g" in State(log) && n in State(log)["g"].nodes
    ensures n.invocation == "i" && n.status == Running && !PredecessorsCompleted(State(log)["g"], n.id)
  {
    var before := NodesAndBinding();
    var e, g := Edge("b", "a"), State(before)["g"];
    StarIsAcyclic([e], "a");
    assert g.edges + [e] == [e];
    var a, b := g.nodes[0], g.nodes[1];
    assert a in g.nodes && b in g.nodes;
    assert EndpointsMutable(g, e);
    EdgeIntoBoundNodeBreaksOrder(before, "g", e, a);
    n := a.(status := Running, reason := "");
    log := before + [EdgeAdded("g", e)] + [NodeTransitioned("g", n)];
  }

  // ------------------------------------------------- a stale reason

  lemma StarWalk(es: seq<Edge>, hub: Id, p: seq<Id>, k: nat)
    requires Walk(es, p) && k + 1 < |p| && forall e | e in es :: e.to == hub && e.from != hub
    ensures p[k] != hub && p[k + 1] == hub
  {
    assert Edge(p[k], p[k + 1]) in es;
  }

  /** Edges that all lead into one node, and none out of it, form no cycle. */
  lemma StarIsAcyclic(es: seq<Edge>, hub: Id)
    requires forall e | e in es :: e.to == hub && e.from != hub
    ensures !Cyclic(es)
  {
    forall a, p | IsWalk(es, p, a, a) ensures false {
      StarWalk(es, hub, p, |p| - 2);
      StarWalk(es, hub, p, 0);
    }
  }

  lemma UpsertAt(nodes: seq<Node>, k: nat, node: Node)
    requires k < |nodes| && nodes[k].id == node.id && Distinct(nodes)
    ensures Upsert(nodes, node) == nodes[k := node]
  {
    var r := Upsert(nodes, node);
    forall i | 0 <= i < |nodes| && i != k ensures nodes[i].id != node.id { }
  }

  /** Some legal log leaves this one graph. */
  ghost predicate Reachable(g: Graph) {
    exists log :: Legal(log) && State(log) == map["g" := g]
  }

  lemma Applied(g: Graph, ev: Event, h: Graph)
    requires ev.gid == "g" && !ev.Created? && Apply(map["g" := g], ev).value["g"] == h
    ensures Apply(map["g" := g], ev) == Some(map["g" := h])
  {
    assert Apply(map["g" := g], ev).value == map["g" := h];
  }

  lemma ReachBy(log: seq<Event>, g: Graph, ev: Event, h: Graph)
    requires Legal(log) && State(log) == map["g" := g] && Allowed(map["g" := g], ev) && Apply(map["g" := g], ev) == Some(map["g" := h])
    ensures Reachable(h)
  {
    Extend(log, ev);
    assert State(log + [ev]) == map["g" := h];
  }

  lemma Reach(g: Graph, ev: Event, h: Graph)
    requires Reachable(g) && ev.gid == "g" && !ev.Created? && Allowed(map["g" := g], ev) && Apply(map["g" := g], ev).value["g"] == h
    ensures Reachable(h)
  {
    Applied(g, ev, h);
    var log :| Legal(log) && State(log) == map["g" := g];
    ReachBy(log, g, ev, h);
  }

  lemma ReachedInv(g: Graph)
    requires Reachable(g)
    ensures GraphInv(g)
  {
    var log :| Legal(log) && State(log) == map["g" := g];
    assert Inv(State(log)) && "g" in State(log);
  }

  lemma ReachEmpty(session: Id)
    ensures Reachable(Graph(session, [], []))
  {
    Extend([], Created("g", session));
    assert State([] + [Created("g", session)]) == map["g" := Graph(session, [], [])];
  }

  lemma ReachNode(g: Graph, id: Id)
    requires Reachable(g) && forall m | m in g.nodes :: m.id != id
    ensures Reachable(g.(nodes := g.nodes + [Plain(id, Proposed)]))
  {
    var h := g.(nodes := g.nodes + [Plain(id, Proposed)]);
    assert Apply(map["g" := g], NodeAdded("g", Plain(id, Proposed))).value["g"] == h;
    Reach(g, NodeAdded("g", Plain(id, Proposed)), h);
  }

  /** A dependency of the first node on the `k`-th. */
  lemma ReachEdge(g: Graph, k: nat)
    requires Reachable(g) && 0 < k < |g.nodes| && g.nodes[0].id != "" && g.nodes[k].id != ""
    requires Mutable(g.nodes[0].status) && Mutable(g.nodes[k].status)
    requires forall f | f in g.edges :: f.to == g.nodes[0].id && f.from != g.nodes[0].id && f.from != g.nodes[k].id
    ensures Reachable(g.(edges := g.edges + [Edge(g.nodes[k].id, g.nodes[0].id)]))
  {
    ReachedInv(g);
    var hub, e := g.nodes[0].id, Edge(g.nodes[k].id, g.nodes[0].id);
    assert g.nodes[0] in g.nodes && g.nodes[k] in g.nodes;
    StarIsAcyclic(g.edges + [e], hub);
    Reach(g, EdgeAdded("g", e), g.(edges := g.edges + [e]));
  }

  /** Any write to the `k`-th node. */
  lemma ReachWrite(g: Graph, k: nat, node: Node)
    requires Reachable(g) && k < |g.nodes| && g.nodes[k].id == node.id
    requires IsUpdate(g, g.nodes[k], node) || IsTransition(g, g.nodes[k], node)
    ensures Reachable(g.(nodes := g.nodes[k := node]))
  {
    ReachedInv(g);
    var ev := if IsUpdate(g, g.nodes[k], node) then NodeUpdated("g", node) else NodeTransitioned("g", node);
    assert g.nodes[k] in g.nodes;
    UpsertAt(g.nodes, k, node);
    Reach(g, ev, g.(nodes := g.nodes[k := node]));
  }

  const WAITERS: seq<Edge> := [Edge("a", "n"), Edge("c", "n"), Edge("b", "n")]

  function Plain(id: Id, status: Status): Node { Node(id, "", "", status, "") }

  /** The graph of the example, by the nodes that change: n waits for a, c and b. */
  function Example(n: Node, c: Status, b: Status): Graph {
    Graph("s", [n, Plain("a", Proposed), Plain("c", c), Plain("b", b)], WAITERS)
  }

  lemma ReachNodes(g: Graph)
    requires g == Example(Plain("n", Proposed), Proposed, Proposed)
    ensures Reachable(g.(edges := []))
  {
    ReachEmpty("s");
    var nodes: seq<Node> := [];
    ReachNode(Graph("s", nodes, []), "n");
    nodes := nodes + [Plain("n", Proposed)];
    ReachNode(Graph("s", nodes, []), "a");
    nodes := nodes + [Plain("a", Proposed)];
    ReachNode(Graph("s", nodes, []), "c");
    nodes := nodes + [Plain("c", Proposed)];
    ReachNode(Graph("s", nodes, []), "b");
    assert nodes + [Plain("b", Proposed)] == g.nodes;
  }

  lemma ReachExample()
    ensures Reachable(Example(Plain("n", Proposed), Proposed, Proposed))
  {
    var g := Example(Plain("n", Proposed), Proposed, Proposed);
    ReachNodes(g);
    ReachEdge(g.(edges := []), 1);
    assert [] + [WAITERS[0]] == [WAITERS[0]];
    ReachEdge(g.(edges := [WAITERS[0]]), 2);
    assert [WAITERS[0]] + [WAITERS[1]] == [WAITERS[0], WAITERS[1]];
    ReachEdge(g.(edges := [WAITERS[0], WAITERS[1]]), 3);
    assert [WAITERS[0], WAITERS[1]] + [WAITERS[2]] == WAITERS;
  }

  /** A node nothing leads into is shown ready. */
  lemma FreeNodeIsReady(g: Graph, n: Node)
    requires Mutable(n.status) && n.status != Blocked && forall e | e in g.edges :: e.to != n.id
    ensures Project(g, n) == n.(status := Ready, reason := "")
  {
    ProjectedStatus(g, n);
    FirstDeadMeans(g.nodes, g.edges, n.id);
    ScannedAll(n, g.edges);
  }

  const STORED: Node := Node("n", "", "title", Blocked, "dependency_cancelled")

  lemma CancelAndUpdate()
    ensures Reachable(Example(STORED, Proposed, Cancelled))
  {
    ReachExample();
    var g := Example(Plain("n", Proposed), Proposed, Proposed);
    FreeNodeIsReady(g, g.nodes[3]);
    ReachWrite(g, 3, Plain("b", Cancelled));
    var h := Example(Plain("n", Proposed), Proposed, Cancelled);
    assert g.nodes[3 := Plain("b", Cancelled)] == h.nodes;
    CancelledFirst(h);
    ReachWrite(h, 0, STORED);
    assert h.nodes[0 := STORED] == Example(STORED, Proposed, Cancelled).nodes;
  }

  lemma FailC()
    ensures Reachable(Example(STORED, Failed, Cancelled))
  {
    CancelAndUpdate();
    var g := Example(STORED, Proposed, Cancelled);
    FreeNodeIsReady(g, g.nodes[2]);
    ReachWrite(g, 2, Plain("c", Running));
    var h := Example(STORED, Running, Cancelled);
    assert g.nodes[2 := Plain("c", Running)] == h.nodes;
    ReachWrite(h, 2, Plain("c", Failed));
    assert h.nodes[2 := Plain("c", Failed)] == Example(STORED, Failed, Cancelled).nodes;
  }

  /** b is cancelled, the title of n is updated, then c runs and fails: n keeps the reason
      stored with its title, while a fresh look would name the failure of c. */
  lemma ReasonMayBeStale() returns (g: Graph, n: Node)
    ensures Reachable(g) && n in g.nodes && Mutable(n.status)
    ensures Project(g, n).reason == "dependency_cancelled" && Project(g, Unstored(n)).reason == "dependency_failed"
  {
    FailC();
    g, n := Example(STORED, Failed, Cancelled), STORED;
    assert g.nodes[0] in g.nodes;
    FailedFirst(g);
  }

  lemma DeadOf(nodes: seq<Node>, k: nat, id: Id)
    requires k < |nodes| && Distinct(nodes) && nodes[k].id == id
    ensures DeadStatus(nodes, id) == if Dead(nodes[k].status) then Some(nodes[k].status) else None
  {
    DeadStatusMeans(nodes, id);
    if DeadStatus(nodes, id).Some? {
      var m :| m in nodes && m.id == id && Dead(m.status) && m.status == DeadStatus(nodes, id).value;
      SameIdSameNode(nodes, m, nodes[k]);
    }
    assert nodes[k] in nodes;
  }

  lemma CancelledFirst(g: Graph)
    requires g == Example(Plain("n", Proposed), Proposed, Cancelled)
    ensures Project(g, g.nodes[0]) == Node("n", "", "", Blocked, "dependency_cancelled")
  {
    DeadInExample(Plain("n", Proposed), Proposed, Cancelled);
    ScannedAll(g.nodes[0], WAITERS);
    FirstOfThree(g.nodes);
  }

  lemma DeadInExample(n: Node, c: Status, b: Status)
    requires n.id == "n"
    ensures var nodes := Example(n, c, b).nodes;
            && DeadStatus(nodes, "a") == None
            && DeadStatus(nodes, "c") == (if Dead(c) then Some(c) else None)
            && DeadStatus(nodes, "b") == (if Dead(b) then Some(b) else None)
  {
    var nodes := Example(n, c, b).nodes;
    DeadOf(nodes, 1, "a");
    DeadOf(nodes, 2, "c");
    DeadOf(nodes, 3, "b");
  }

  lemma FirstOfThree(nodes: seq<Node>)
    ensures FirstDead(nodes, WAITERS, "n") ==
            if DeadStatus(nodes, "a").Some? then DeadStatus(nodes, "a")
            else if DeadStatus(nodes, "c").Some? then DeadStatus(nodes, "c")
            else DeadStatus(nodes, "b")
  {
    var second := WAITERS[1..];
    var third := second[1..];
    assert third[0] == WAITERS[2] && third[1..] == [];
    assert FirstDead(nodes, third, "n") == DeadStatus(nodes, "b");
    assert second[0] == WAITERS[1];
    assert FirstDead(nodes, second, "n") == if DeadStatus(nodes, "c").Some? then DeadStatus(nodes, "c") else DeadStatus(nodes, "b");
  }

  lemma FailedFirst(g: Graph)
    requires g == Example(STORED, Failed, Cancelled)
    ensures Project(g, STORED) == STORED && Project(g, Unstored(STORED)).reason == "dependency_failed"
  {
    DeadInExample(STORED, Failed, Cancelled);
    ScannedAll(Unstored(STORED), WAITERS);
    FirstOfThree(g.nodes);
    FirstOnly(g.nodes);
  }

  /** A node stored as blocked is scanned up to its first dependency. */
  lemma FirstOnly(nodes: seq<Node>)
    requires DeadStatus(nodes, "a") == None
    ensures FirstDead(nodes, Scanned(STORED, WAITERS), "n") == None
  {
    assert Scanned(STORED, WAITERS) == [WAITERS[0]];
    assert [WAITERS[0]][1..] == [];
  }

  // ------------------------------------------------- what no later event undoes

  lemma StepKeepsTerminal(gs: Graphs, ev: Event, gid: Id, n: Node)
    requires Inv(gs) && Allowed(gs, ev) && gid in gs && n in gs[gid].nodes && Terminal(n.status)
    ensures Apply(gs, ev).Some? && gid in Apply(gs, ev).value && n in Apply(gs, ev).value[gid].nodes
  {
    var g := gs[gid];
    if (ev.NodeUpdated? || ev.NodeTransitioned?) && ev.gid == gid {
      var m :| m in g.nodes && IsWrite(gs, g, m, ev.node);
      WriteFacts(gs, g, m, ev.node);
      assert GraphInv(g);
      if m.id == n.id { SameIdSameNode(g.nodes, m, n); }
    }
  }

  /** A completed, failed or cancelled node is never changed again. */
  lemma {:induction false} TerminalNodesNeverChange(log: seq<Event>, k: nat, gid: Id, n: Node)
    requires Legal(log) && k <= |log| && Legal(log[..k])
    requires gid in State(log[..k]) && n in State(log[..k])[gid].nodes && Terminal(n.status)
    ensures gid in State(log) && n in State(log)[gid].nodes
  {
    if k == |log| {
      assert log[..k] == log;
    } else {
      var before := log[..|log| - 1];
      assert before[..k] == log[..k];
      TerminalNodesNeverChange(before, k, gid, n);
      StepKeepsTerminal(State(before), log[|log| - 1], gid, n);
    }
  }

  lemma DeadEdgeNotRemovable(g: Graph, removed: Edge, e: Edge, m: Node)
    requires GraphInv(g) && EndpointsMutable(g, removed) && m in g.nodes && m.id == e.from && Dead(m.status)
    ensures removed != e
  {
    var a :| a in g.nodes && a.id == removed.from && Mutable(a.status);
    if a.id == m.id { SameIdSameNode(g.nodes, a, m); }
  }

  lemma StepKeepsDeadEdge(gs: Graphs, ev: Event, gid: Id, e: Edge, m: Node)
    requires Inv(gs) && Allowed(gs, ev) && gid in gs
    requires e in gs[gid].edges && m in gs[gid].nodes && m.id == e.from && Dead(m.status)
    ensures Apply(gs, ev).Some? && gid in Apply(gs, ev).value && e in Apply(gs, ev).value[gid].edges
  {
    if ev.EdgeRemoved? && ev.gid == gid { DeadEdgeNotRemovable(gs[gid], ev.edge, e, m); }
  }

  /** The edge from a failed or cancelled predecessor can never be removed, so a
      blocked node that no invocation drives stays blocked. */
  lemma {:induction false} DeadEdgesStay(log: seq<Event>, k: nat, gid: Id, e: Edge, m: Node)
    requires Legal(log) && k <= |log| && Legal(log[..k]) && gid in State(log[..k])
    requires e in State(log[..k])[gid].edges && m in State(log[..k])[gid].nodes && m.id == e.from && Dead(m.status)
    ensures gid in State(log) && e in State(log)[gid].edges && DeadPredecessor(State(log)[gid], e.to)
  {
    TerminalNodesNeverChange(log, k, gid, m);
    if k == |log| {
      assert log[..k] == log;
    } else {
      var before := log[..|log| - 1];
      assert before[..k] == log[..k];
      DeadEdgesStay(before, k, gid, e, m);
      TerminalNodesNeverChange(before, k, gid, m);
      StepKeepsDeadEdge(State(before), log[|log| - 1], gid, e, m);
    }
  }

  // ----------------------------------------------------------------- progress

  /** Some unfinished node waits for nothing. */
  lemma UnfinishedMinimum(g: Graph) returns (n: Node)
    requires GraphInv(g) && exists m :: m in g.nodes && m.status != Completed
    ensures n in g.nodes && n.status != Completed && PredecessorsCompleted(g, n.id)
  {
    var open := set m | m in g.nodes && m.status != Completed :: m.id;
    var n0 :| n0 in g.nodes && n0.status != Completed;
    assert n0.id in open;
    var x := AcyclicHasMinimal(g.edges, open);
    n :| n in g.nodes && n.status != Completed && n.id == x;
    forall e, m | e in g.edges && e.to == x && m in g.nodes && m.id == e.from ensures m.status == Completed {
      assert m.status != Completed ==> m.id in open;
    }
  }

  /** Unless some node failed or was cancelled, a graph with unfinished work always
      shows a node that is ready or running: dependencies cannot deadlock. */
  lemma UnfinishedGraphsCanProgress(log: seq<Event>, gid: Id)
    requires Legal(log) && gid in State(log)
    requires forall n | n in State(log)[gid].nodes :: !Dead(n.status)
    requires exists n :: n in State(log)[gid].nodes && n.status != Completed
    ensures var g := State(log)[gid];
            exists n :: n in g.nodes && (Project(g, n).status == Ready || Project(g, n).status == Running)
  {
    var g := State(log)[gid];
    assert GraphInv(g);
    var n := UnfinishedMinimum(g);
    ShownStatusFromDependencies(log, gid, n);
  }
}
