/** The broker's wait-for graph: edges are refused when they would close a cycle. */
module DeadlockAvoidance {
  import opened Basics
  import opened Graphs

  function WithEdge(g: Graph, from: Id, to: Id): Graph {
    g[from := Succ(g, from) + {to}]
  }

  /** `id` loses its own edges and vanishes from every waiting set. */
  function Without(g: Graph, id: Id): Graph {
    map x | x in g && x != id :: g[x] - {id}
  }

  function Blocked(g: Graph): set<Id> {
    set x | x in g && g[x] != {}
  }

  /** Adding one edge to an acyclic graph closes a cycle exactly when its head reaches its tail. */
  lemma EdgeClosesCycleIff(g: Graph, from: Id, to: Id)
    requires Acyclic(g)
    ensures Acyclic(WithEdge(g, from, to)) <==> !Reaches(g, to, from)
  {
    var h := WithEdge(g, from, to);
    NewEdgesCloseCycleIff(g, h, from);
    if d :| d in Succ(g, from) && Reaches(g, d, from) {
      var n: nat :| ReachIn(g, d, from, n);
      assert ReachIn(g, from, from, n + 1);
    }
    assert to in Succ(h, from);
  }

  class DeadlockGuard {
    var graph: Graph

    constructor ()
      ensures graph == map[]
    {
      graph := map[];
    }

    /** True when the edge was safe and is now recorded. */
    method AddDependency(id: Id, dependsOn: Id) returns (safe: bool)
      modifies this
      ensures safe <==> !Reaches(old(graph), dependsOn, id)
      ensures graph == if safe then WithEdge(old(graph), id, dependsOn) else old(graph)
      ensures Acyclic(old(graph)) ==>
                && Acyclic(graph)
                && (safe <==> Acyclic(WithEdge(old(graph), id, dependsOn)))
    {
      if Acyclic(graph) {
        EdgeClosesCycleIff(graph, id, dependsOn);
      }
      var cycle := WouldCycle(id, dependsOn);
      if cycle {
        return false;
      }
      graph := graph[id := Succ(graph, id) + {dependsOn}];
      return true;
    }

    /** The waiter may yield to the holder when that edge is safe. */
    method YieldTo(holder: Id, waiter: Id) returns (safe: bool)
      modifies this
      ensures safe <==> !Reaches(old(graph), holder, waiter)
      ensures graph == if safe then WithEdge(old(graph), waiter, holder) else old(graph)
    {
      safe := AddDependency(waiter, holder);
    }

    method RemoveJob(id: Id)
      modifies this
      ensures graph == Without(old(graph), id)
    {
      graph := graph - {id};
      var rest := graph.Keys;
      while rest != {}
        invariant rest <= graph.Keys == old(graph).Keys - {id}
        invariant forall x :: x in graph ==>
                    graph[x] == if x in rest then old(graph)[x] else old(graph)[x] - {id}
        decreases rest
      {
        var x :| x in rest;
        graph := graph[x := graph[x] - {id}];
        rest := rest - {x};
      }
    }

    method GetBlockedJobs() returns (r: seq<Id>)
      ensures Elems(r) == Blocked(graph) && Distinct(r)
      ensures forall x :: x in r <==> x in graph && graph[x] != {}
    {
      r := [];
      var rest := graph.Keys;
      while rest != {}
        invariant rest <= graph.Keys
        invariant Elems(r) == Blocked(graph) - rest
        invariant Distinct(r)
        decreases rest
      {
        var x :| x in rest;
        rest := rest - {x};
        if graph[x] != {} {
          assert x !in Elems(r);
          assert Elems(r + [x]) == Elems(r) + {x};
          r := r + [x];
        }
      }
      assert forall x :: x in r <==> x in Elems(r);
    }

    method WouldCycle(from: Id, to: Id) returns (found: bool)
      ensures found <==> Reaches(graph, to, from)
    {
      if from == to {
        assert ReachIn(graph, to, from, 0);
        return true;
      }
      ghost var start := {to};
      var visited: set<Id> := {};
      var stack := [to];
      SearchStarts(graph, start, from, stack);
      while stack != []
        invariant SearchInv(graph, start, from, visited, stack)
        decreases start + Targets(graph) - visited, |stack|
      {
        var current := stack[|stack| - 1];
        assert current in stack;
        if current == from {
          return true;
        }
        if current in visited {
          SearchSkips(graph, start, from, visited, stack);
          stack := stack[..|stack| - 1];
        } else {
          assert current in Elems(stack);
          var more := ListOf(Succ(graph, current));
          SearchExpands(graph, start, from, visited, stack, more);
          visited := visited + {current};
          stack := stack[..|stack| - 1] + more;
        }
      }
      SearchExhausted(graph, start, from, visited);
      assert to in start;
      return false;
    }

    /** A set listed in whatever order iteration yields. */
    method ListOf(s: set<Id>) returns (r: seq<Id>)
      ensures Elems(r) == s
    {
      r := [];
      var rest := s;
      while rest != {}
        invariant rest <= s && Elems(r) == s - rest
        decreases rest
      {
        var x :| x in rest;
        assert Elems(r + [x]) == Elems(r) + {x};
        r := r + [x];
        rest := rest - {x};
      }
    }
  }

  // ---- Runs of the guard ----

  datatype GuardOp = Add(id: Id, dependsOn: Id) | Remove(id: Id)

  ghost function Apply(g: Graph, op: GuardOp): Graph {
    match op
    case Add(id, d) => if Reaches(g, d, id) then g else WithEdge(g, id, d)
    case Remove(id) => Without(g, id)
  }

  ghost function ApplyAll(g: Graph, ops: seq<GuardOp>): Graph
    decreases |ops|
  {
    if ops == [] then g else ApplyAll(Apply(g, ops[0]), ops[1..])
  }

  lemma {:induction false} RunsStayAcyclic(g: Graph, ops: seq<GuardOp>)
    requires Acyclic(g)
    ensures Acyclic(ApplyAll(g, ops))
    decreases |ops|
  {
    if ops != [] {
      match ops[0] {
        case Add(id, d) => EdgeClosesCycleIff(g, id, d);
        case Remove(id) => SubgraphAcyclic(Without(g, id), g);
      }
      RunsStayAcyclic(Apply(g, ops[0]), ops[1..]);
    }
  }

  /** No deadlock: while anybody is blocked, some waited-for job is not. */
  lemma SomeWaitedForJobIsFree(g: Graph) returns (waiter: Id, free: Id)
    requires Acyclic(g) && Blocked(g) != {}
    ensures waiter in Blocked(g) && free in Succ(g, waiter) && free !in Blocked(g)
  {
    waiter := MinimalMember(g, Blocked(g));
    free :| free in Succ(g, waiter);
  }

  ghost function RemoveAll(g: Graph, order: seq<Id>): Graph {
    if order == [] then g else RemoveAll(Without(g, order[0]), order[1..])
  }

  /** Every job is still present and unblocked at the moment it is removed. */
  ghost predicate RemovesOnlyFreeJobs(g: Graph, order: seq<Id>) {
    order == [] ||
    (order[0] in Nodes(g) && order[0] !in Blocked(g) && RemovesOnlyFreeJobs(Without(g, order[0]), order[1..]))
  }

  lemma RemovingFreeJob(g: Graph, x: Id)
    requires x in Nodes(g) && x !in Blocked(g)
    ensures Nodes(Without(g, x)) == Nodes(g) - {x}
  {
    var h := Without(g, x);
    forall v | v in Nodes(g) - {x} ensures v in Nodes(h) {
      if v !in g {
        var y :| y in g && v in g[y];
        assert y in h && v in h[y];
      }
    }
  }

  /** Whatever free job is removed each time, the removals never outnumber the jobs, and
      as many removals as jobs leave nothing behind. */
  lemma {:induction false} GreedyDrainIsBounded(g: Graph, order: seq<Id>)
    requires RemovesOnlyFreeJobs(g, order)
    ensures |Nodes(RemoveAll(g, order))| == |Nodes(g)| - |order|
    ensures |order| == |Nodes(g)| ==> RemoveAll(g, order) == map[]
    decreases |order|
  {
    if order != [] {
      RemovingFreeJob(g, order[0]);
      GreedyDrainIsBounded(Without(g, order[0]), order[1..]);
    } else if |Nodes(g)| == 0 {
      assert g.Keys == {};
    }
  }

  /** The greedy drain never gets stuck: from any acyclic graph some order of free removals
      empties it. */
  lemma {:induction false} DrainExists(g: Graph) returns (order: seq<Id>)
    requires Acyclic(g)
    ensures RemovesOnlyFreeJobs(g, order) && |order| == |Nodes(g)|
    ensures RemoveAll(g, order) == map[]
    decreases |Nodes(g)|
  {
    if Nodes(g) == {} {
      order := [];
    } else {
      var x := MinimalMember(g, Nodes(g));
      assert x in Blocked(g) ==> Succ(g, x) <= Targets(g);
      RemovingFreeJob(g, x);
      SubgraphAcyclic(Without(g, x), g);
      var rest := DrainExists(Without(g, x));
      order := [x] + rest;
      assert order[1..] == rest;
    }
    GreedyDrainIsBounded(g, order);
  }
  // ---- Which edges a run leaves ----

  ghost predicate HasEdge(g: Graph, a: Id, b: Id) {
    a in g && b in g[a]
  }

  /** From position `i` on, neither end of the edge is removed. */
  ghost predicate EndsStay(ops: seq<GuardOp>, i: nat, a: Id, b: Id) {
    forall j :: i <= j < |ops| ==> ops[j] != Remove(a) && ops[j] != Remove(b)
  }

  /** Call `i` asked for the edge while its head did not reach its tail. */
  ghost predicate AddedAt(g: Graph, ops: seq<GuardOp>, i: nat, a: Id, b: Id) {
    i < |ops| && ops[i] == Add(a, b) && !Reaches(ApplyAll(g, ops[..i]), b, a)
  }

  lemma EdgeAfterStep(g: Graph, op: GuardOp, a: Id, b: Id)
    ensures HasEdge(Apply(g, op), a, b) <==>
            && op != Remove(a) && op != Remove(b)
            && (HasEdge(g, a, b) || (op == Add(a, b) && !Reaches(g, b, a)))
  {
  }

  lemma AddedLater(g: Graph, ops: seq<GuardOp>, i: nat, a: Id, b: Id)
    requires i < |ops|
    ensures AddedAt(g, ops, i, a, b) <==>
            if i == 0 then ops[0] == Add(a, b) && !Reaches(g, b, a)
            else AddedAt(Apply(g, ops[0]), ops[1..], i - 1, a, b)
  {
    if i == 0 {
      assert ops[..0] == [];
    } else {
      assert ops[..i][0] == ops[0] && ops[..i][1..] == ops[1..][..i - 1];
    }
  }

  /** After every run an edge is there exactly when it was at the start or was added while safe, and
      neither of its ends has been removed since. */
  lemma {:induction false} RunsRecordEdges(g: Graph, ops: seq<GuardOp>, a: Id, b: Id)
    ensures HasEdge(ApplyAll(g, ops), a, b) <==>
            || (HasEdge(g, a, b) && EndsStay(ops, 0, a, b))
            || exists i: nat :: AddedAt(g, ops, i, a, b) && EndsStay(ops, i + 1, a, b)
    decreases |ops|
  {
    if ops != [] {
      var next, rest := Apply(g, ops[0]), ops[1..];
      RunsRecordEdges(next, rest, a, b);
      EdgeAfterStep(g, ops[0], a, b);
      StaysFromTheStart(ops, a, b);
      if i: nat :| AddedAt(g, ops, i, a, b) && EndsStay(ops, i + 1, a, b) {
        AddedLater(g, ops, i, a, b);
        if i > 0 {
          StaysLater(ops, i, a, b);
        }
      }
      if i: nat :| AddedAt(next, rest, i, a, b) && EndsStay(rest, i + 1, a, b) {
        AddedLater(g, ops, i + 1, a, b);
        StaysLater(ops, i + 1, a, b);
      }
      AddedLater(g, ops, 0, a, b);
    }
  }

  lemma StaysLater(ops: seq<GuardOp>, i: nat, a: Id, b: Id)
    requires 0 < i < |ops|
    ensures EndsStay(ops, i + 1, a, b) <==> EndsStay(ops[1..], i, a, b)
  {
    assert forall j :: i <= j < |ops[1..]| ==> ops[1..][j] == ops[j + 1];
    assert forall j :: i + 1 <= j < |ops| ==> ops[j] == ops[1..][j - 1];
  }

  lemma StaysFromTheStart(ops: seq<GuardOp>, a: Id, b: Id)
    requires ops != []
    ensures EndsStay(ops, 0, a, b) <==> ops[0] != Remove(a) && ops[0] != Remove(b) && EndsStay(ops[1..], 0, a, b)
    ensures EndsStay(ops, 1, a, b) <==> EndsStay(ops[1..], 0, a, b)
  {
    assert forall j :: 0 <= j < |ops[1..]| ==> ops[1..][j] == ops[j + 1];
    assert forall j :: 1 <= j < |ops| ==> ops[j] == ops[1..][j - 1];
  }
}
