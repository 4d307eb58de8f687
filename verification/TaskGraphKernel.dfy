/** The kernel object: each public method takes the task graph mutex, folds the log,
    checks its guard and appends. The methods are proved to produce only legal logs,
    so the theorems of TaskGraphTheorems hold in every state they leave behind. */
module TaskGraphKernel {
  import opened Wrappers
  import opened Walks
  import opened TaskGraph
  import opened TaskGraphTheorems

  /** The in-place projection. Predecessors are read from the partly projected list,
      which is harmless because projecting never changes a failed, cancelled or
      completed status. */
  method ProjectedNodes(g: Graph) returns (nodes: seq<Node>)
    requires Distinct(g.nodes)
    ensures nodes == ProjectAll(g)
  {
    nodes := g.nodes;
    var completed := CompletedNodes(nodes);
    for i := 0 to |nodes|
      invariant |nodes| == |g.nodes|
      invariant forall k | 0 <= k < i :: nodes[k] == Project(g, g.nodes[k])
      invariant forall k | i <= k < |nodes| :: nodes[k] == g.nodes[k]
    {
      if Mutable(nodes[i].status) {
        var n := ProjectOne(g, nodes, i, completed);
        nodes := nodes[i := n];
      }
    }
  }

  /** Which nodes are completed, by id. */
  method CompletedNodes(nodes: seq<Node>) returns (completed: map<Id, bool>)
    requires Distinct(nodes)
    ensures forall m | m in nodes :: m.id in completed && completed[m.id] == (m.status == Completed)
  {
    completed := map[];
    for k := 0 to |nodes|
      invariant forall m | m in nodes[..k] :: m.id in completed && completed[m.id] == (m.status == Completed)
    {
      assert nodes[..k + 1] == nodes[..k] + [nodes[k]];
      assert forall m | m in nodes[..k] :: m.id != nodes[k].id;
      completed := completed[nodes[k].id := nodes[k].status == Completed];
    }
    assert nodes[..|nodes|] == nodes;
  }

  method ProjectOne(g: Graph, nodes: seq<Node>, i: nat, completed: map<Id, bool>) returns (node: Node)
    requires i < |nodes| == |g.nodes| && nodes[i] == g.nodes[i] && Mutable(nodes[i].status)
    requires forall k | 0 <= k < |nodes| :: nodes[k] == g.nodes[k] || nodes[k] == Project(g, g.nodes[k])
    requires forall m | m in g.nodes :: m.id in completed && completed[m.id] == (m.status == Completed)
    ensures node == Project(g, g.nodes[i])
  {
    node := nodes[i];
    ghost var n := g.nodes[i];
    var waiting := false;
    HalfProjected(g, nodes, completed);
    var e := 0;
    while e < |g.edges|
      invariant 0 <= e <= |g.edges| && node == n
      invariant FirstDead(g.nodes, Scanned(n, g.edges), n.id) == FirstDead(g.nodes, Scanned(n, g.edges[e..]), n.id)
      invariant waiting <==> Unfinished(g.nodes, g.edges[..e], n.id)
    {
      var edge := g.edges[e];
      UnfinishedSnoc(g.nodes, g.edges[..e], edge, n.id);
      ScanStep(g.nodes, n, edge, g.edges[e + 1..]);
      assert g.edges[..e + 1] == g.edges[..e] + [edge];
      assert g.edges[e..] == [edge] + g.edges[e + 1..];
      if edge.to == node.id {
        var status, pending := ScanPredecessors(g.nodes, nodes, edge.from, completed);
        if status.Some? {
          node := node.(status := Blocked, reason := Reason(status.value));
          waiting := false;
          return;
        }
        waiting := waiting || pending;
        if node.status == Blocked { return; }
      }
      e := e + 1;
    }
    assert g.edges[..e] == g.edges;
    if node.status == Blocked { return; }
    node := node.(status := if waiting then Waiting else Ready, reason := "");
  }

  /** One edge of the scan: a dead predecessor ends it, and so does the first dependency of
      a node stored as blocked. */
  lemma ScanStep(nodes: seq<Node>, n: Node, edge: Edge, rest: seq<Edge>)
    ensures FirstDead(nodes, Scanned(n, [edge] + rest), n.id) ==
            if edge.to == n.id && DeadStatus(nodes, edge.from).Some? then DeadStatus(nodes, edge.from)
            else if edge.to == n.id && n.status == Blocked then None
            else FirstDead(nodes, Scanned(n, rest), n.id)
  {
    assert ([edge] + rest)[1..] == rest;
    if edge.to == n.id && n.status == Blocked {
      assert [edge][1..] == [];
    } else {
      assert ([edge] + Scanned(n, rest))[1..] == Scanned(n, rest);
    }
  }

  /** Projecting changes no id and no failed, cancelled or completed status. */
  lemma HalfProjected(g: Graph, nodes: seq<Node>, completed: map<Id, bool>)
    requires |nodes| == |g.nodes|
    requires forall k | 0 <= k < |nodes| :: nodes[k] == g.nodes[k] || nodes[k] == Project(g, g.nodes[k])
    requires forall m | m in g.nodes :: m.id in completed && completed[m.id] == (m.status == Completed)
    ensures forall k | 0 <= k < |nodes| :: nodes[k].id == g.nodes[k].id && nodes[k].id in completed
              && Dead(nodes[k].status) == Dead(g.nodes[k].status)
              && (Dead(nodes[k].status) ==> nodes[k].status == g.nodes[k].status)
  {
    forall k | 0 <= k < |nodes|
      ensures nodes[k].id == g.nodes[k].id && nodes[k].id in completed && Dead(nodes[k].status) == Dead(g.nodes[k].status)
      ensures Dead(nodes[k].status) ==> nodes[k].status == g.nodes[k].status
    {
      ProjectedStatus(g, g.nodes[k]);
      assert g.nodes[k] in g.nodes;
    }
  }

  /** Some edge of `es` into `id` starts at a node that is not completed. */
  ghost predicate Unfinished(nodes: seq<Node>, es: seq<Edge>, id: Id) {
    exists f, m :: f in es && f.to == id && m in nodes && m.id == f.from && m.status != Completed
  }

  lemma UnfinishedSnoc(nodes: seq<Node>, es: seq<Edge>, edge: Edge, id: Id)
    ensures Unfinished(nodes, es + [edge], id) <==>
            Unfinished(nodes, es, id) || (edge.to == id && exists m :: m in nodes && m.id == edge.from && m.status != Completed)
  {
  }

  /** The innermost loop: the first failed or cancelled node with the given id, and
      whether some node with that id is not completed. */
  method ScanPredecessors(ghost original: seq<Node>, nodes: seq<Node>, id: Id, completed: map<Id, bool>)
    returns (status: Option<Status>, pending: bool)
    requires |original| == |nodes|
    requires forall k | 0 <= k < |nodes| :: nodes[k].id == original[k].id && nodes[k].id in completed
               && Dead(nodes[k].status) == Dead(original[k].status)
               && (Dead(nodes[k].status) ==> nodes[k].status == original[k].status)
    requires forall m | m in original :: m.id in completed && completed[m.id] == (m.status == Completed)
    ensures status == DeadStatus(original, id)
    ensures status.None? ==> (pending <==> exists m :: m in original && m.id == id && m.status != Completed)
  {
    pending := false;
    for k := 0 to |nodes|
      invariant DeadStatus(original, id) == DeadStatus(original[k..], id)
      invariant pending <==> exists m :: m in original[..k] && m.id == id && m.status != Completed
    {
      assert original[k..] == [original[k]] + original[k + 1..];
      assert original[..k + 1] == original[..k] + [original[k]];
      assert original[k] in original;
      if nodes[k].id == id {
        if Dead(nodes[k].status) { return Some(nodes[k].status), pending; }
        if !completed[nodes[k].id] { pending := true; }
      }
    }
    assert original[..|nodes|] == original;
    status := None;
  }

  method FindNode(nodes: seq<Node>, id: Id) returns (r: Option<Node>)
    ensures r.Some? ==> r.value in nodes && r.value.id == id
    ensures r.None? ==> forall n | n in nodes :: n.id != id
  {
    for k := 0 to |nodes|
      invariant forall n | n in nodes[..k] :: n.id != id
    {
      if nodes[k].id == id { return Some(nodes[k]); }
      assert nodes[..k + 1] == nodes[..k] + [nodes[k]];
    }
    assert nodes[..|nodes|] == nodes;
    r := None;
  }

  /** The projection sees the stored nodes one for one. */
  lemma ProjectedMembers(g: Graph, p: Node)
    requires p in ProjectAll(g)
    ensures exists n :: n in g.nodes && p == Project(g, n)
  {
    var i :| 0 <= i < |g.nodes| && ProjectAll(g)[i] == p;
    assert g.nodes[i] in g.nodes;
  }

  lemma StoredMembers(g: Graph, n: Node)
    requires n in g.nodes
    ensures Project(g, n) in ProjectAll(g)
  {
    var i :| 0 <= i < |g.nodes| && g.nodes[i] == n;
    assert ProjectAll(g)[i] == Project(g, n);
  }

  lemma EndsFound(g: Graph, e: Edge, a: Option<Node>, b: Option<Node>)
    requires GraphInv(g)
    requires a.Some? ==> a.value in ProjectAll(g) && a.value.id == e.from
    requires a.None? ==> forall p | p in ProjectAll(g) :: p.id != e.from
    requires b.Some? ==> b.value in ProjectAll(g) && b.value.id == e.to
    requires b.None? ==> forall p | p in ProjectAll(g) :: p.id != e.to
    ensures EndpointsMutable(g, e) <==> a.Some? && b.Some? && Mutable(a.value.status) && Mutable(b.value.status)
  {
    var m := FoundIn(g, e.from, a);
    var n := FoundIn(g, e.to, b);
  }

  /** The entry a lookup by id finds in the projection is the projection of the one
      stored entry with that id. */
  lemma FoundIn(g: Graph, id: Id, r: Option<Node>) returns (n: Node)
    requires GraphInv(g)
    requires r.Some? ==> r.value in ProjectAll(g) && r.value.id == id
    requires r.None? ==> forall p | p in ProjectAll(g) :: p.id != id
    ensures r.None? ==> forall m | m in g.nodes :: m.id != id
    ensures r.Some? ==> n in g.nodes && n.id == id && r.value == Project(g, n)
    ensures r.Some? ==> forall m | m in g.nodes && m.id == id :: m == n
    ensures r.Some? ==> Mutable(r.value.status) == Mutable(n.status)
  {
    n := if r.Some? then r.value else Node("", "", "", Proposed, "");
    if r.Some? {
      ProjectedMembers(g, r.value);
      n :| n in g.nodes && r.value == Project(g, n);
      ProjectedStatus(g, n);
      forall m | m in g.nodes && m.id == id ensures m == n { SameIdSameNode(g.nodes, m, n); }
    } else {
      forall m | m in g.nodes ensures m.id != id {
        StoredMembers(g, m);
        ProjectedStatus(g, m);
      }
    }
  }

  /** What a run writes into its node. */
  function Reduced(n: Node, run: RunStatus): Node
    requires run != RunOther
  {
    match run
    case RunRunning => n.(status := Running, reason := "")
    case RunCompleted => n.(status := Completed, reason := "")
    case RunFailed => n.(status := Failed, reason := "invocation_failed")
  }

  ghost predicate Reducible(gs: Graphs, gid: Id, n: Node, session: Id, inv: Id, run: RunStatus) {
    && BoundTo(gs, gid, n, inv) && gs[gid].session == session && !Terminal(n.status)
    && run != RunOther && !(run == RunRunning && n.status == Running)
  }

  /** Progress of the reduction loops: the graphs in `done`, and in graph `gid` the
      nodes listed in `seen`, have been treated. */
  ghost predicate ReducedSoFar(gs: Graphs, session: Id, inv: Id, run: RunStatus, done: set<Id>,
                               gid: Id, seen: seq<Node>, before: seq<Event>, log: seq<Event>)
  {
    && (forall h, n | Reducible(gs, h, n, session, inv, run) && (h in done || (h == gid && n in seen)) ::
          log == before + [NodeTransitioned(h, Reduced(n, run))])
    && (log == before ||
        exists h, n :: Reducible(gs, h, n, session, inv, run) && (h in done || (h == gid && n in seen)))
  }

  lemma NothingYet(gs: Graphs, session: Id, inv: Id, run: RunStatus, done: set<Id>,
                   gid: Id, seen: seq<Node>, n: Node, before: seq<Event>, log: seq<Event>)
    requires InvocationsUnique(gs) && inv != ""
    requires ReducedSoFar(gs, session, inv, run, done, gid, seen, before, log)
    requires Reducible(gs, gid, n, session, inv, run) && gid !in done && n !in seen
    ensures log == before
  {
    forall h, m | Reducible(gs, h, m, session, inv, run) ensures h == gid && m == n {
      assert BoundTo(gs, h, m, inv) && BoundTo(gs, gid, n, inv);
    }
  }

  class Kernel {
    var log: seq<Event>

    ghost predicate Valid() reads this { Legal(log) }

    constructor ()
      ensures Valid() && log == []
    {
      log := [];
    }

    method LoadGraphs() returns (r: Option<Graphs>)
      ensures r == Fold(log)
    {
      var gs: Graphs := map[];
      for i := 0 to |log|
        invariant Fold(log[..i]) == Some(gs)
        invariant unchanged(this)
      {
        assert log[..i + 1][..i] == log[..i];
        var next := Apply(gs, log[i]);
        if next.None? {
          NoneStays(log, i + 1);
          return None;
        }
        gs := next.value;
      }
      assert log[..|log|] == log;
      r := Some(gs);
    }

    /** The projected graph every guard looks at. */
    method LoadGraph(gid: Id) returns (r: Option<Graph>)
      requires Valid()
      ensures r.Some? <==> gid in State(log)
      ensures r.Some? ==> r.value == State(log)[gid].(nodes := ProjectAll(State(log)[gid]))
    {
      var gs := LoadGraphs();
      LegalLogsAreSound(log);
      if gid !in gs.value { return None; }
      assert GraphInv(gs.value[gid]);
      var nodes := ProjectedNodes(gs.value[gid]);
      r := Some(gs.value[gid].(nodes := nodes));
    }

    method Append(ev: Event)
      requires Valid() && Allowed(State(log), ev)
      modifies this
      ensures Valid() && log == old(log) + [ev]
    {
      Extend(log, ev);
      log := log + [ev];
    }

    method CreateTaskGraph(session: Id, newId: Id) returns (ok: bool)
      requires Valid() && newId !in State(log)
      modifies this
      ensures Valid() && (ok <==> session != "")
      ensures log == if ok then old(log) + [Created(newId, session)] else old(log)
    {
      if session == "" { return false; }
      Append(Created(newId, session));
      ok := true;
    }

    method AddTaskGraphNode(gid: Id, invocation: Id, title: string, newId: Id) returns (ok: bool)
      requires Valid() && forall g, n | g in State(log) && n in State(log)[g].nodes :: n.id != newId
      modifies this
      ensures Valid() && (ok <==> gid in State(old(log)) && invocation == "")
      ensures log == if ok then old(log) + [NodeAdded(gid, Node(newId, "", title, Proposed, ""))] else old(log)
    {
      var graph := LoadGraph(gid);
      if graph.None? || invocation != "" { return false; }
      Append(NodeAdded(gid, Node(newId, "", title, Proposed, "")));
      ok := true;
    }

    /** Accepts exactly the edges that keep the graph a duplicate-free DAG over
        nodes whose plan is still open. */
    method AddTaskGraphEdge(gid: Id, from: Id, to: Id) returns (ok: bool)
      requires Valid()
      modifies this
      ensures Valid() && (ok <==> Allowed(State(old(log)), EdgeAdded(gid, Edge(from, to))))
      ensures log == if ok then old(log) + [EdgeAdded(gid, Edge(from, to))] else old(log)
    {
      var graph := LoadGraph(gid);
      if graph.None? || from == "" || to == "" || from == to { return false; }
      var edge := Edge(from, to);
      ghost var g := State(log)[gid];
      assert GraphInv(g);
      var a := FindNode(graph.value.nodes, from);
      var b := FindNode(graph.value.nodes, to);
      EndsFound(g, Edge(from, to), a, b);
      if a.None? || b.None? || !Mutable(a.value.status) || !Mutable(b.value.status) || edge in graph.value.edges {
        return false;
      }
      var ids := seq(|graph.value.nodes|, i requires 0 <= i < |graph.value.nodes| => graph.value.nodes[i].id);
      IdsCoverEdges(g, ids, edge);
      var cyclic := HasCycle(ids, graph.value.edges + [edge]);
      if cyclic { return false; }
      Append(EdgeAdded(gid, edge));
      ok := true;
    }

    method RemoveTaskGraphEdge(gid: Id, from: Id, to: Id) returns (ok: bool)
      requires Valid()
      modifies this
      ensures Valid() && (ok <==> Allowed(State(old(log)), EdgeRemoved(gid, Edge(from, to))))
      ensures log == if ok then old(log) + [EdgeRemoved(gid, Edge(from, to))] else old(log)
    {
      var graph := LoadGraph(gid);
      if graph.None? { return false; }
      ghost var g := State(log)[gid];
      assert GraphInv(g);
      var a := FindNode(graph.value.nodes, from);
      var b := FindNode(graph.value.nodes, to);
      EndsFound(g, Edge(from, to), a, b);
      if a.None? || b.None? || !Mutable(a.value.status) || !Mutable(b.value.status)
         || Edge(from, to) !in graph.value.edges {
        return false;
      }
      Append(EdgeRemoved(gid, Edge(from, to)));
      ok := true;
    }

    method UpdateTaskGraphNode(gid: Id, id: Id, title: string) returns (ok: bool, ghost node: Node)
      requires Valid()
      modifies this
      ensures Valid()
      ensures ok <==> gid in State(old(log)) && exists n :: n in State(old(log))[gid].nodes && n.id == id && Mutable(n.status)
      ensures log == if ok then old(log) + [NodeUpdated(gid, node)] else old(log)
      ensures ok ==> exists n :: n in State(old(log))[gid].nodes && n.id == id
                                 && node == Project(State(old(log))[gid], n).(title := title)
    {
      node := Node("", "", "", Proposed, "");
      var graph := LoadGraph(gid);
      if graph.None? { return false, node; }
      ghost var g := State(log)[gid];
      assert GraphInv(g);
      var found := FindNode(graph.value.nodes, id);
      ghost var n := FoundIn(g, id, found);
      if found.None? || !Mutable(found.value.status) { return false, node; }
      var updated := found.value.(title := title);
      assert IsUpdate(g, n, updated);
      Append(NodeUpdated(gid, updated));
      ok, node := true, updated;
    }

    /** `invocationSession` is the session of the invocation, if it exists. */
    method BindTaskGraphNodeInvocation(gid: Id, id: Id, inv: Id, invocationSession: Option<Id>) returns (ok: bool)
      requires Valid() && (invocationSession.Some? ==> inv != "")
      modifies this
      ensures Valid()
      ensures ok <==>
              && gid in State(old(log)) && invocationSession == Some(State(old(log))[gid].session)
              && InvocationUnused(State(old(log)), inv)
              && exists n :: n in State(old(log))[gid].nodes && n.id == id && n.invocation == ""
                             && Project(State(old(log))[gid], n).status == Ready
      ensures if ok then |log| == |old(log)| + 1 && old(log) < log else log == old(log)
      ensures ok ==> exists n :: n in State(old(log))[gid].nodes && n.id == id
                                 && log[|log| - 1] == NodeUpdated(gid, Project(State(old(log))[gid], n).(invocation := inv))
    {
      var graph := LoadGraph(gid);
      if graph.None? { return false; }
      ghost var g := State(log)[gid];
      assert GraphInv(g);
      var found := FindNode(graph.value.nodes, id);
      ghost var n := FoundIn(g, id, found);
      if n in g.nodes { ProjectedStatus(g, n); }
      if found.None? || found.value.status != Ready || found.value.invocation != "" { return false; }
      if invocationSession != Some(graph.value.session) { return false; }
      var gs := LoadGraphs();
      if gid', m :| gid' in gs.value && m in gs.value[gid'].nodes && m.invocation == inv { return false; }
      var bound := found.value.(invocation := inv);
      assert InvocationUnused(State(log), inv);
      assert IsBinding(State(log), g, n, bound);
      Append(NodeUpdated(gid, bound));
      assert log[|log| - 1] == NodeUpdated(gid, Project(g, n).(invocation := inv));
      ok := true;
    }

    method TransitionTaskGraphNode(gid: Id, id: Id, status: Status, reason: string) returns (ok: bool)
      requires Valid()
      modifies this
      ensures Valid()
      ensures ok <==> gid in State(old(log)) &&
                      exists n :: n in State(old(log))[gid].nodes && n.id == id
                                  && TransitionAllowed(Project(State(old(log))[gid], n).status, status)
      ensures if ok then |log| == |old(log)| + 1 && old(log) < log else log == old(log)
      ensures ok ==> exists n :: n in State(old(log))[gid].nodes && n.id == id
                        && log[|log| - 1] == NodeTransitioned(gid, Project(State(old(log))[gid], n).(status := status, reason := reason))
    {
      var graph := LoadGraph(gid);
      if graph.None? { return false; }
      ghost var g := State(log)[gid];
      assert GraphInv(g);
      var found := FindNode(graph.value.nodes, id);
      ghost var n := FoundIn(g, id, found);
      if found.None? || !TransitionAllowed(found.value.status, status) { return false; }
      var moved := found.value.(status := status, reason := reason);
      assert IsTransition(g, n, moved);
      Append(NodeTransitioned(gid, moved));
      assert log[|log| - 1] == NodeTransitioned(gid, Project(g, n).(status := status, reason := reason));
      ok := true;
    }

    /** Carries an invocation run into the graph. Because an invocation is bound to
        one node at most, the two nested loops append at most one event. */
    method ReduceTaskGraphInvocationRun(session: Id, inv: Id, run: RunStatus)
      requires Valid() && inv != ""
      modifies this
      ensures Valid()
      ensures forall gid, n | Reducible(State(old(log)), gid, n, session, inv, run) ::
                log == old(log) + [NodeTransitioned(gid, Reduced(n, run))]
      ensures (forall gid, n :: !Reducible(State(old(log)), gid, n, session, inv, run)) ==> log == old(log)
    {
      if run == RunOther { return; }
      var loaded := LoadGraphs();
      var gs := loaded.value;
      ghost var before := log;
      assert gs == State(before) && Inv(gs);
      var todo := gs.Keys;
      while todo != {}
        invariant Valid() && todo <= gs.Keys
        invariant ReducedSoFar(gs, session, inv, run, gs.Keys - todo, "", [], before, log)
        decreases todo
      {
        var gid :| gid in todo;
        ghost var done := gs.Keys - todo;
        todo := todo - {gid};
        assert gs.Keys - todo == done + {gid};
        if gs[gid].session == session {
          ReduceGraph(gs, gid, inv, run, before, done);
        } else {
          OtherSession(gs, session, inv, run, done, gid, before, log);
        }
      }
      AllReduced(gs, session, inv, run, before, log);
    }

    method ReduceGraph(gs: Graphs, gid: Id, inv: Id, run: RunStatus, ghost before: seq<Event>, ghost done: set<Id>)
      requires Valid() && inv != "" && run != RunOther && gid in gs && gid !in done
      requires Legal(before) && gs == State(before)
      requires ReducedSoFar(gs, gs[gid].session, inv, run, done, "", [], before, log)
      modifies this
      ensures Valid()
      ensures ReducedSoFar(gs, gs[gid].session, inv, run, done + {gid}, "", [], before, log)
    {
      var g := gs[gid];
      assert GraphInv(g);
      var nodes := ProjectedNodes(g);
      for i := 0 to |nodes|
        invariant Valid()
        invariant ReducedSoFar(gs, g.session, inv, run, done, gid, g.nodes[..i], before, log)
      {
        ghost var n := g.nodes[i];
        NextNode(g, i);
        ProjectionReducesAlike(g, n, run);
        var node := nodes[i];
        if node.invocation == inv && !Terminal(node.status) && !(run == RunRunning && node.status == Running) {
          NothingYet(gs, g.session, inv, run, done, gid, g.nodes[..i], n, before, log);
          ReductionAllowed(gs, gid, n, run);
          Append(NodeTransitioned(gid, Reduced(node, run)));
          NowReduced(gs, g.session, inv, run, done, gid, g.nodes[..i], n, before, log);
        } else {
          NotReduced(gs, g.session, inv, run, done, gid, g.nodes[..i], n, before, log);
        }
      }
      assert g.nodes[..|nodes|] == g.nodes;
      GraphReduced(gs, inv, run, done, gid, before, log);
    }
  }

  lemma NextNode(g: Graph, i: nat)
    requires GraphInv(g) && i < |g.nodes|
    ensures g.nodes[i] in g.nodes && g.nodes[i] !in g.nodes[..i] && g.nodes[..i + 1] == g.nodes[..i] + [g.nodes[i]]
  {
  }

  lemma ProjectionReducesAlike(g: Graph, n: Node, run: RunStatus)
    requires run != RunOther
    ensures var p := Project(g, n);
            p.invocation == n.invocation && Reduced(p, run) == Reduced(n, run)
            && (Terminal(p.status) <==> Terminal(n.status)) && (p.status == Running <==> n.status == Running)
  {
    ProjectedStatus(g, n);
  }

  lemma ReductionAllowed(gs: Graphs, gid: Id, n: Node, run: RunStatus)
    requires gid in gs && n in gs[gid].nodes && n.invocation != "" && !Terminal(n.status) && run != RunOther
    ensures Allowed(gs, NodeTransitioned(gid, Reduced(n, run)))
  {
    assert IsReduction(n, Reduced(n, run));
  }

  lemma NotReduced(gs: Graphs, session: Id, inv: Id, run: RunStatus, done: set<Id>, gid: Id,
                   seen: seq<Node>, n: Node, before: seq<Event>, log: seq<Event>)
    requires ReducedSoFar(gs, session, inv, run, done, gid, seen, before, log) && !Reducible(gs, gid, n, session, inv, run)
    ensures ReducedSoFar(gs, session, inv, run, done, gid, seen + [n], before, log)
  {
  }

  lemma GraphReduced(gs: Graphs, inv: Id, run: RunStatus, done: set<Id>, gid: Id, before: seq<Event>, log: seq<Event>)
    requires gid in gs && ReducedSoFar(gs, gs[gid].session, inv, run, done, gid, gs[gid].nodes, before, log)
    ensures ReducedSoFar(gs, gs[gid].session, inv, run, done + {gid}, "", [], before, log)
  {
  }

  lemma OtherSession(gs: Graphs, session: Id, inv: Id, run: RunStatus, done: set<Id>, gid: Id,
                     before: seq<Event>, log: seq<Event>)
    requires gid in gs && gs[gid].session != session
    requires ReducedSoFar(gs, session, inv, run, done, "", [], before, log)
    ensures ReducedSoFar(gs, session, inv, run, done + {gid}, "", [], before, log)
  {
  }

  lemma NowReduced(gs: Graphs, session: Id, inv: Id, run: RunStatus, done: set<Id>, gid: Id,
                   seen: seq<Node>, n: Node, before: seq<Event>, log: seq<Event>)
    requires InvocationsUnique(gs) && inv != "" && Reducible(gs, gid, n, session, inv, run)
    requires log == before + [NodeTransitioned(gid, Reduced(n, run))]
    ensures ReducedSoFar(gs, session, inv, run, done, gid, seen + [n], before, log)
  {
    forall h, m | Reducible(gs, h, m, session, inv, run) ensures h == gid && m == n {
      assert BoundTo(gs, h, m, inv) && BoundTo(gs, gid, n, inv);
    }
    assert n in seen + [n];
  }

  lemma AllReduced(gs: Graphs, session: Id, inv: Id, run: RunStatus, before: seq<Event>, log: seq<Event>)
    requires ReducedSoFar(gs, session, inv, run, gs.Keys, "", [], before, log)
    ensures forall gid, n | Reducible(gs, gid, n, session, inv, run) :: log == before + [NodeTransitioned(gid, Reduced(n, run))]
    ensures (forall gid, n :: !Reducible(gs, gid, n, session, inv, run)) ==> log == before
  {
  }

  lemma {:induction false} NoneStays(log: seq<Event>, k: nat)
    requires k <= |log| && Fold(log[..k]).None?
    ensures Fold(log).None?
    decreases |log| - k
  {
    if k == |log| {
      assert log[..k] == log;
    } else {
      assert log[..k + 1][..k] == log[..k];
      NoneStays(log, k + 1);
    }
  }

  lemma IdsCoverEdges(g: Graph, ids: seq<Id>, edge: Edge)
    requires GraphInv(g) && EndpointsMutable(g, edge)
    requires |ids| == |g.nodes| && forall i | 0 <= i < |ids| :: ids[i] == ProjectAll(g)[i].id
    ensures forall e | e in g.edges + [edge] :: e.from in ids && e.to in ids
  {
    forall e | e in g.edges + [edge] ensures e.from in ids && e.to in ids {
      IdsCover(g, ids, e.from);
      IdsCover(g, ids, e.to);
    }
  }

  lemma IdsCover(g: Graph, ids: seq<Id>, id: Id)
    requires |ids| == |g.nodes| && forall i | 0 <= i < |ids| :: ids[i] == ProjectAll(g)[i].id
    requires exists n :: n in g.nodes && n.id == id
    ensures id in ids
  {
    var n :| n in g.nodes && n.id == id;
    var i :| 0 <= i < |g.nodes| && g.nodes[i] == n;
    ProjectedStatus(g, n);
    assert ids[i] == id;
  }
}
