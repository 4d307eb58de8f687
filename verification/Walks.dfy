/** Directed walks over an edge list, and the depth-first cycle check that guards
    every new dependency edge of a task graph (internal/kernel/task_graph.go). */
module Walks {

  type Id = string

  datatype Edge = Edge(from: Id, to: Id)

  /** Consecutive members of `p` are joined by edges. */
  ghost predicate Walk(es: seq<Edge>, p: seq<Id>) {
    forall i | 0 <= i < |p| - 1 :: Edge(p[i], p[i + 1]) in es
  }

  ghost predicate IsWalk(es: seq<Edge>, p: seq<Id>, a: Id, b: Id) {
    |p| > 1 && Walk(es, p) && p[0] == a && p[|p| - 1] == b
  }

  /** `b` can be reached from `a` over at least one edge. */
  ghost predicate Reaches(es: seq<Edge>, a: Id, b: Id) {
    exists p :: IsWalk(es, p, a, b)
  }

  ghost predicate Cyclic(es: seq<Edge>) {
    exists a :: Reaches(es, a, a)
  }

  lemma ReachesStep(es: seq<Edge>, a: Id, b: Id, c: Id)
    requires a == b || Reaches(es, a, b)
    requires Edge(b, c) in es
    ensures Reaches(es, a, c)
  {
    if a == b {
      assert IsWalk(es, [b, c], a, c);
    } else {
      var p :| IsWalk(es, p, a, b);
      var q := p + [c];
      forall i | 0 <= i < |q| - 1 ensures Edge(q[i], q[i + 1]) in es {
        if i < |p| - 1 { assert Edge(p[i], p[i + 1]) in es; }
      }
      assert IsWalk(es, q, a, c);
    }
  }

  /** Every edge that leaves `done` stays inside it. */
  ghost predicate Closed(es: seq<Edge>, done: set<Id>) {
    forall e | e in es && e.from in done :: e.to in done
  }

  lemma {:induction false} WalkStaysInside(es: seq<Edge>, done: set<Id>, p: seq<Id>, k: nat)
    requires Closed(es, done) && Walk(es, p) && k < |p| && p[0] in done
    ensures p[k] in done
  {
    if k > 0 {
      WalkStaysInside(es, done, p, k - 1);
      assert Edge(p[k - 1], p[k]) in es;
    }
  }

  /** No cycle passes through `done`, and no edge leaves it. */
  ghost predicate Finished(es: seq<Edge>, done: set<Id>) {
    Closed(es, done) && forall a | a in done :: !Reaches(es, a, a)
  }

  /** A node all of whose successors are finished is finished too. */
  lemma FinishNode(es: seq<Edge>, done: set<Id>, id: Id)
    requires Finished(es, done) && id !in done
    requires forall e | e in es && e.from == id :: e.to in done
    ensures Finished(es, done + {id})
  {
    if Reaches(es, id, id) {
      var p :| IsWalk(es, p, id, id);
      assert Edge(p[0], p[1]) in es;
      assert Walk(es, p[1..]) by {
        forall i | 0 <= i < |p[1..]| - 1 ensures Edge(p[1..][i], p[1..][i + 1]) in es {
          assert Edge(p[i + 1], p[i + 2]) in es;
        }
      }
      WalkStaysInside(es, done, p[1..], |p| - 2);
    }
  }

  /** `next` lists, for each node, the heads of its outgoing edges. */
  ghost predicate Adjacency(next: map<Id, seq<Id>>, es: seq<Edge>) {
    && (forall e | e in es :: e.from in next && e.to in next[e.from])
    && (forall a, c | a in next && c in next[a] :: Edge(a, c) in es)
  }

  /** What the search keeps between calls: the nodes seen and no longer on the
      stack are finished. */
  ghost predicate Explored(es: seq<Edge>, seen: set<Id>, stack: set<Id>) {
    stack <= seen && Finished(es, seen - stack)
  }

  method Visit(next: map<Id, seq<Id>>, id: Id, seen0: set<Id>, stack0: set<Id>,
               ghost es: seq<Edge>, ghost nodes: set<Id>)
    returns (found: bool, seen: set<Id>, stack: set<Id>)
    requires Adjacency(next, es) && Explored(es, seen0, stack0)
    requires forall e | e in es :: e.to in nodes
    requires id in nodes
    requires forall s | s in stack0 :: Reaches(es, s, id)
    ensures found ==> Cyclic(es)
    ensures !found ==> Explored(es, seen, stack) && stack == stack0
    ensures !found ==> seen0 <= seen && id in seen - stack
    decreases nodes - seen0
  {
    seen, stack := seen0, stack0;
    if id in stack { return true, seen, stack; }
    if id in seen { return false, seen, stack; }
    seen, stack := seen + {id}, stack + {id};
    assert seen - stack == seen0 - stack0;
    var kids := if id in next then next[id] else [];
    for k := 0 to |kids|
      invariant Explored(es, seen, stack) && stack == stack0 + {id} && seen0 + {id} <= seen
      invariant forall c | c in kids[..k] :: c in seen - stack
    {
      var child := kids[k];
      forall s | s in stack ensures Reaches(es, s, child) {
        ReachesStep(es, s, id, child);
      }
      found, seen, stack := Visit(next, child, seen, stack, es, nodes);
      if found { return true, seen, stack; }
      assert kids[..k + 1] == kids[..k] + [child];
    }
    FinishNode(es, seen - stack, id);
    stack := stack - {id};
    assert stack == stack0;
    assert seen - stack == seen - (stack0 + {id}) + {id};
    found := false;
  }

  /** The adjacency lists built from the edge list, in edge order. */
  method BuildNext(es: seq<Edge>) returns (next: map<Id, seq<Id>>)
    ensures Adjacency(next, es)
  {
    next := map[];
    for i := 0 to |es|
      invariant Adjacency(next, es[..i])
    {
      var e := es[i];
      ghost var before := next;
      next := next[e.from := (if e.from in next then next[e.from] else []) + [e.to]];
      assert es[..i + 1] == es[..i] + [e];
      forall f | f in es[..i + 1] ensures f.from in next && f.to in next[f.from] {
        if f != e { assert f in es[..i]; }
      }
      forall a, c | a in next && c in next[a] ensures Edge(a, c) in es[..i + 1] {
        if !(a in before && c in before[a]) { assert Edge(a, c) == e; }
      }
    }
    assert es[..|es|] == es;
  }

  lemma CycleStartsAtEdge(es: seq<Edge>)
    requires Cyclic(es)
    ensures exists e :: e in es && Reaches(es, e.from, e.from)
  {
    var a :| Reaches(es, a, a);
    var p :| IsWalk(es, p, a, a);
    assert Edge(p[0], p[1]) in es;
  }

  /** The check answers true exactly when the edge relation has a directed cycle. */
  method HasCycle(ids: seq<Id>, es: seq<Edge>) returns (found: bool)
    requires forall e | e in es :: e.from in ids && e.to in ids
    ensures found <==> Cyclic(es)
  {
    var next := BuildNext(es);
    var seen, stack: set<Id> := {}, {};
    ghost var nodes := set x | x in ids;
    for k := 0 to |ids|
      invariant Explored(es, seen, stack) && stack == {}
      invariant forall x | x in ids[..k] :: x in seen
    {
      found, seen, stack := Visit(next, ids[k], seen, stack, es, nodes);
      if found { return true; }
    }
    if Cyclic(es) { CycleStartsAtEdge(es); }
    found := false;
  }

  /** Removing edges cannot create a cycle. */
  lemma FewerEdgesStayAcyclic(es: seq<Edge>, fewer: seq<Edge>)
    requires !Cyclic(es) && forall e | e in fewer :: e in es
    ensures !Cyclic(fewer)
  {
    if Cyclic(fewer) {
      var a :| Reaches(fewer, a, a);
      var p :| IsWalk(fewer, p, a, a);
      assert IsWalk(es, p, a, a);
      assert Reaches(es, a, a);
    }
  }

  ghost predicate HasPredecessorIn(es: seq<Edge>, s: set<Id>, x: Id) {
    exists e :: e in es && e.to == x && e.from in s
  }

  lemma {:induction false} BackwardWalk(es: seq<Edge>, s: set<Id>, n: nat) returns (p: seq<Id>)
    requires s != {} && forall x | x in s :: HasPredecessorIn(es, s, x)
    ensures |p| == n + 1 && Walk(es, p) && forall x | x in p :: x in s
  {
    if n == 0 {
      var x :| x in s;
      p := [x];
    } else {
      var q := BackwardWalk(es, s, n - 1);
      assert q[0] in q && HasPredecessorIn(es, s, q[0]);
      var e :| e in es && e.to == q[0] && e.from in s;
      p := [e.from] + q;
      forall i | 0 <= i < |p| - 1 ensures Edge(p[i], p[i + 1]) in es {
        if i > 0 { assert Edge(q[i - 1], q[i]) in es; } else { assert e == Edge(p[0], p[1]); }
      }
    }
  }

  lemma {:induction false} Pigeonhole(p: seq<Id>, s: set<Id>) returns (i: nat, j: nat)
    requires |p| > |s| && forall x | x in p :: x in s
    ensures i < j < |p| && p[i] == p[j]
  {
    var x := p[0];
    if k :| 1 <= k < |p| && p[k] == x {
      i, j := 0, k;
    } else {
      assert |s - {x}| == |s| - 1;
      i, j := Pigeonhole(p[1..], s - {x});
      i, j := i + 1, j + 1;
    }
  }

  /** A non-empty finite set of nodes of an acyclic graph has a member with no
      predecessor inside the set. */
  lemma AcyclicHasMinimal(es: seq<Edge>, s: set<Id>) returns (x: Id)
    requires !Cyclic(es) && s != {}
    ensures x in s && !HasPredecessorIn(es, s, x)
  {
    if y :| y in s && !HasPredecessorIn(es, s, y) {
      x := y;
    } else {
      var p := BackwardWalk(es, s, |s|);
      var i, j := Pigeonhole(p, s);
      var q := p[i..j + 1];
      forall k | 0 <= k < |q| - 1 ensures Edge(q[k], q[k + 1]) in es {
        assert Edge(p[i + k], p[i + k + 1]) in es;
      }
      assert IsWalk(es, q, p[i], p[i]);
      assert Reaches(es, p[i], p[i]);
      assert false;
    }
  }
}
