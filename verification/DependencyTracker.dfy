/** Dependency edges of submitted jobs: cycle detection at submit time and the runnable test. */
module DependencyTracking {
  import opened Basics
  import opened JobStates
  import opened Graphs

  type Edges = map<Id, seq<Id>>

  /** Statuses as the backend reports them; an absent key is an unknown job. */
  type Statuses = map<Id, JobStatus>

  datatype RegisterResult = Registered | CycleError

  function Deps(edges: Edges, id: Id): seq<Id> {
    if id in edges then edges[id] else []
  }

  function WaitGraph(edges: Edges): Graph {
    map x | x in edges :: Elems(edges[x])
  }

  /** All dependencies of `id` have succeeded. */
  predicate Runnable(edges: Edges, id: Id, st: Statuses) {
    forall d :: d in Deps(edges, id) ==> d in st && st[d] == Succeeded
  }

  /** States after which a dependency is given up. */
  const DEP_FAILED_STATES: set<JobStatus> := {Failed, Cancelled, Timeout, TtlExpired, DeadLettered}

  predicate HasGivenUp(d: Id, st: Statuses) {
    d in st && st[d] in DEP_FAILED_STATES
  }

  function GivenUp(deps: seq<Id>, st: Statuses): (r: seq<Id>)
    ensures forall d :: d in r <==> d in deps && HasGivenUp(d, st)
    ensures IsSubsequence(r, deps)
  {
    if deps == [] then []
    else if HasGivenUp(deps[0], st) then [deps[0]] + GivenUp(deps[1..], st)
    else GivenUp(deps[1..], st)
  }

  /** Which dependencies are reported as given up, told by the transition table: those that can
      never succeed any more and were not archived, and the timed-out ones although they can. */
  lemma GivenUpIff(d: Id, st: Statuses)
    ensures HasGivenUp(d, st) <==>
            d in st && (st[d] == Timeout || (st[d] != Archived && !CanReach(st[d], Succeeded)))
    ensures CanReach(Timeout, Succeeded) && !CanReach(Archived, Succeeded)
  {
    SucceedsIffNotFinished(Timeout);
    SucceedsIffNotFinished(Archived);
    if d in st {
      SucceedsIffNotFinished(st[d]);
    }
  }

  lemma GivenUpAppend(s: seq<Id>, d: Id, st: Statuses)
    ensures GivenUp(s + [d], st) == GivenUp(s, st) + if HasGivenUp(d, st) then [d] else []
  {
    if s != [] {
      assert (s + [d])[1..] == s[1..] + [d];
      GivenUpAppend(s[1..], d, st);
    }
  }

  /** What the search of `detect_cycle` decides, in terms of the graph alone. */
  ghost predicate ClosesCycle(edges: Edges, id: Id, dependsOn: seq<Id>) {
    exists d :: d in dependsOn && Reaches(WaitGraph(edges), d, id)
  }

  /** On an acyclic graph: registering `dependsOn` keeps it acyclic exactly when no listed
      dependency reaches the job. */
  lemma RegisterKeepsAcyclicIff(edges: Edges, id: Id, dependsOn: seq<Id>)
    requires Acyclic(WaitGraph(edges))
    ensures Acyclic(WaitGraph(edges[id := dependsOn])) <==> !ClosesCycle(edges, id, dependsOn)
  {
    var g, h := WaitGraph(edges), WaitGraph(edges[id := dependsOn]);
    assert forall x :: x != id ==> Succ(g, x) == Succ(h, x);
    NewEdgesCloseCycleIff(g, h, id);
    assert forall d :: d in Succ(h, id) <==> d in dependsOn;
  }

  class DependencyTracker {
    var edges: Edges

    constructor ()
      ensures edges == map[]
    {
      edges := map[];
    }

    method Register(id: Id, dependsOn: seq<Id>)
      modifies this
      ensures edges == if dependsOn == [] then old(edges) else old(edges)[id := dependsOn]
    {
      if dependsOn != [] {
        edges := edges[id := dependsOn];
      }
    }

    method Unregister(id: Id)
      modifies this
      ensures edges == old(edges) - {id}
    {
      edges := edges - {id};
    }

    /** Depth-first search from the listed dependencies with an explicit stack. It is exact on
        every graph, and on an acyclic one it answers whether the new edges would close a cycle. */
    method DetectCycle(id: Id, dependsOn: seq<Id>) returns (found: bool)
      ensures found <==> ClosesCycle(edges, id, dependsOn)
      ensures Acyclic(WaitGraph(edges)) ==>
                (found <==> !Acyclic(WaitGraph(edges[id := dependsOn])))
    {
      if Acyclic(WaitGraph(edges)) {
        RegisterKeepsAcyclicIff(edges, id, dependsOn);
      }
      if dependsOn == [] {
        return false;
      }
      ghost var g, start := WaitGraph(edges), Elems(dependsOn);
      var visited: set<Id> := {};
      var stack := dependsOn;
      SearchStarts(g, start, id, stack);
      while stack != []
        invariant SearchInv(g, start, id, visited, stack)
        decreases start + Graphs.Targets(g) - visited, |stack|
      {
        var current := stack[|stack| - 1];
        assert current in stack;
        if current == id {
          return true;
        }
        if current in visited {
          SearchSkips(g, start, id, visited, stack);
          stack := stack[..|stack| - 1];
        } else {
          assert current in Elems(stack);
          SearchExpands(g, start, id, visited, stack, Deps(edges, current));
          visited := visited + {current};
          stack := stack[..|stack| - 1] + Deps(edges, current);
        }
      }
      SearchExhausted(g, start, id, visited);
      return false;
    }

    /** Detect and register in one step; an empty list leaves existing edges alone. */
    method ValidateAndRegister(id: Id, dependsOn: seq<Id>) returns (r: RegisterResult)
      modifies this
      ensures r == CycleError <==> ClosesCycle(old(edges), id, dependsOn)
      ensures edges == if dependsOn == [] || r == CycleError then old(edges) else old(edges)[id := dependsOn]
    {
      if dependsOn == [] {
        return Registered;
      }
      var found := DetectCycle(id, dependsOn);
      if found {
        return CycleError;
      }
      edges := edges[id := dependsOn];
      return Registered;
    }

    method IsRunnable(id: Id, st: Statuses) returns (ok: bool)
      ensures ok <==> Runnable(edges, id, st)
      ensures ok <==> id in edges ==> forall d :: d in edges[id] ==> d in st && st[d] == Succeeded
    {
      var deps := Deps(edges, id);
      for i := 0 to |deps|
        invariant forall k :: 0 <= k < i ==> deps[k] in st && st[deps[k]] == Succeeded
      {
        if !(deps[i] in st && st[deps[i]] == Succeeded) {
          return false;
        }
      }
      return true;
    }

    method HasFailedDependency(id: Id, st: Statuses) returns (failed: bool, which: seq<Id>)
      ensures which == GivenUp(Deps(edges, id), st)
      ensures failed <==> exists d :: d in Deps(edges, id) && HasGivenUp(d, st)
      ensures forall d :: d in which <==>
                && id in edges && d in edges[id] && d in st
                && (st[d] == Failed || st[d] == Cancelled || st[d] == Timeout || st[d] == TtlExpired
                    || st[d] == DeadLettered)
      ensures failed ==> !Runnable(edges, id, st)
    {
      var deps := Deps(edges, id);
      which := [];
      for i := 0 to |deps|
        invariant which == GivenUp(deps[..i], st)
      {
        GivenUpAppend(deps[..i], deps[i], st);
        assert deps[..i + 1] == deps[..i] + [deps[i]];
        if HasGivenUp(deps[i], st) {
          which := which + [deps[i]];
        }
      }
      assert deps[..|deps|] == deps;
      failed := |which| > 0;
      assert failed ==> which[0] in which;
    }
  }

  /** The edges known to an optional tracker. */
  ghost function EdgesOf(tracker: DependencyTracker?): Edges
    reads tracker
  {
    if tracker == null then map[] else tracker.edges
  }

  // ---- Runs of the tracker ----

  datatype TrackerOp = Validate(id: Id, deps: seq<Id>) | Forget(id: Id) | RegisterUnchecked(id: Id, deps: seq<Id>)

  /** The effect of one operation on the edges, as the methods above state it. */
  ghost function Apply(edges: Edges, op: TrackerOp): Edges {
    match op
    case Validate(id, deps) =>
      if deps == [] || ClosesCycle(edges, id, deps) then edges else edges[id := deps]
    case Forget(id) => edges - {id}
    case RegisterUnchecked(id, deps) =>
      if deps == [] then edges else edges[id := deps]
  }

  ghost function ApplyAll(edges: Edges, ops: seq<TrackerOp>): Edges
    decreases |ops|
  {
    if ops == [] then edges else ApplyAll(Apply(edges, ops[0]), ops[1..])
  }

  lemma ApplyKeepsAcyclic(edges: Edges, op: TrackerOp)
    requires Acyclic(WaitGraph(edges)) && !op.RegisterUnchecked?
    ensures Acyclic(WaitGraph(Apply(edges, op)))
  {
    match op
    case Validate(id, deps) => RegisterKeepsAcyclicIff(edges, id, deps);
    case _ => SubgraphAcyclic(WaitGraph(Apply(edges, op)), WaitGraph(edges));
  }

  lemma EmptyAcyclic()
    ensures Acyclic(map[])
  {
    forall x, n: nat | n > 0 ensures !ReachIn(map[], x, x, n) {}
  }

  /** Every run of checked registrations and removals keeps the wait-for graph acyclic. */
  lemma {:induction false} RunsStayAcyclic(edges: Edges, ops: seq<TrackerOp>)
    requires Acyclic(WaitGraph(edges))
    requires forall i :: 0 <= i < |ops| ==> !ops[i].RegisterUnchecked?
    ensures Acyclic(WaitGraph(ApplyAll(edges, ops)))
    decreases |ops|
  {
    if ops != [] {
      ApplyKeepsAcyclic(edges, ops[0]);
      RunsStayAcyclic(Apply(edges, ops[0]), ops[1..]);
    }
  }

  /** `register` performs no check: it keeps an acyclic graph acyclic exactly when the
      check it skips would have passed, or there is nothing to record. */
  lemma UncheckedRegisterIff(edges: Edges, id: Id, deps: seq<Id>)
    requires Acyclic(WaitGraph(edges))
    ensures Acyclic(WaitGraph(Apply(edges, RegisterUnchecked(id, deps)))) <==> !ClosesCycle(edges, id, deps)
  {
    if deps != [] {
      RegisterKeepsAcyclicIff(edges, id, deps);
    }
  }
}
