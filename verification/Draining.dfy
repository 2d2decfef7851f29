/** Scheduling by dependencies alone: nothing deadlocks, and rounds of select, claim and succeed
    finish every job in dependency order. */
module Draining {
  import opened Basics
  import opened JobStates
  import opened Graphs
  import opened DependencyTracking
  import opened MemoryBackend
  import opened Sorting
  import opened Dispatching
  import opened Submission
  import C = Concurrency
  import R = ResourcePools

  /** Only the dependency tracker is configured. */
  const DEPENDENCY_GATE := Gates(None, None, true)
  const NO_SLOTS_USED := SlotState(C.NO_SLOTS, R.EMPTY_POOL)

  ghost predicate HasStatus(st: Store, id: Id, status: JobStatus) {
    id in st.jobs && st.jobs[id].status == status
  }

  ghost function QueuedIds(st: Store): set<Id> {
    set id | id in st.jobs && st.jobs[id].status == Queued
  }

  ghost predicate QueuedOrDone(st: Store) {
    forall id :: id in st.jobs ==> st.jobs[id].status == Queued || st.jobs[id].status == Succeeded
  }

  ghost function Selected(st: Store, edges: Edges, limit: int): seq<Id>
    requires ValidStore(st)
  {
    Select(DEPENDENCY_GATE, st, edges, NO_SLOTS_USED, limit, None).ids
  }

  /** With only the tracker, the dequeued jobs that are runnable are selected, each once. */
  lemma SelectedFromDequeued(st: Store, edges: Edges, limit: int)
    requires WellSubmitted(st, edges)
    ensures Distinct(Selected(st, edges, limit))
    ensures forall id :: id in Selected(st, edges, limit) <==>
              id in Dequeue(st, limit, None, None) && Runnable(edges, id, StatusesOf(st))
  {
    var ids := Dequeue(st, limit, None, None);
    DequeueIsBestFirst(st, limit, None, None);
    DequeuedAreStored(st, limit, None);
    GreedySelectsReady(DEPENDENCY_GATE, st, edges, NO_SLOTS_USED, ids);
    SubsequenceDistinct(Selected(st, edges, limit), ids);
    forall id | id in ids
      ensures id in Selected(st, edges, limit) <==> Runnable(edges, id, StatusesOf(st))
    {
      var i :| 0 <= i < |ids| && ids[i] == id;
      SelectedIff(DEPENDENCY_GATE, st, edges, NO_SLOTS_USED, ids, i);
    }
  }

  lemma DequeuedAll(st: Store, limit: int)
    requires ValidStore(st) && limit >= |QueuedIds(st)|
    ensures forall id :: id in Dequeue(st, limit, None, None) <==> HasStatus(st, id, Queued)
  {
    var ranking := Ranking(st, None, None);
    RankingIsExact(st, None, None);
    DistinctLength(IdsOf(ranking));
    assert Elems(IdsOf(ranking)) == QueuedIds(st);
  }

  /** With a limit covering the queue, exactly the queued jobs whose dependencies have all
      succeeded are selected, each once. */
  lemma SelectedIffRunnable(st: Store, edges: Edges, limit: int)
    requires WellSubmitted(st, edges) && limit >= |QueuedIds(st)|
    ensures Distinct(Selected(st, edges, limit))
    ensures forall id :: id in Selected(st, edges, limit) <==>
              HasStatus(st, id, Queued) && Runnable(edges, id, StatusesOf(st))
  {
    SelectedFromDequeued(st, edges, limit);
    DequeuedAll(st, limit);
  }

  lemma {:induction false} SubsequenceDistinct<T>(s: seq<T>, t: seq<T>)
    requires IsSubsequence(s, t) && Distinct(t)
    ensures Distinct(s) && forall x :: x in s ==> x in t
    decreases |t|
  {
    if s != [] {
      assert t == [t[0]] + t[1..];
      if s[0] == t[0] {
        SubsequenceDistinct(s[1..], t[1..]);
        assert s == [s[0]] + s[1..];
        assert t[0] !in t[1..];
      } else {
        SubsequenceDistinct(s, t[1..]);
      }
    }
  }

  /** Deadlock freedom: while some job is queued and all others are queued or succeeded,
      a selection covering the queue is not empty. */
  lemma SomethingIsSelected(st: Store, edges: Edges, limit: int)
    requires WellSubmitted(st, edges) && QueuedOrDone(st)
    requires QueuedIds(st) != {} && limit >= |QueuedIds(st)|
    ensures Selected(st, edges, limit) != []
  {
    SelectedIffRunnable(st, edges, limit);
    var m := MinimalMember(WaitGraph(edges), QueuedIds(st));
    forall d | d in Deps(edges, m) ensures HasStatus(st, d, Succeeded) {
      assert d in Succ(WaitGraph(edges), m);
    }
    assert m in Selected(st, edges, limit);
  }

  // ---- Rounds ----

  /** Claims each selected job and lets it succeed. */
  function FinishAll(st: Store, owner: Id, ids: seq<Id>): Store
    decreases |ids|
  {
    if ids == [] then st
    else FinishAll(SetStatus(Claim(st, ids[0], owner), ids[0], Succeeded), owner, ids[1..])
  }

  lemma {:induction false} FinishAllEffect(st: Store, edges: Edges, owner: Id, ids: seq<Id>)
    requires WellSubmitted(st, edges) && AllStored(st, ids)
    ensures
      var z := FinishAll(st, owner, ids);
      && WellSubmitted(z, edges) && z.jobs.Keys == st.jobs.Keys
      && forall id :: id in st.jobs ==> z.jobs[id].status == if id in ids then Succeeded else st.jobs[id].status
    decreases |ids|
  {
    if ids != [] {
      assert forall id :: id in ids <==> id == ids[0] || id in ids[1..];
      assert ids[0] in st.jobs;
      FinishAllEffect(SetStatus(Claim(st, ids[0], owner), ids[0], Succeeded), edges, owner, ids[1..]);
    }
  }

  datatype Outcome = Outcome(st: Store, order: seq<Id>)

  /** `rounds` rounds, with the jobs in the order they were finished. */
  ghost function Drain(st: Store, edges: Edges, owner: Id, limit: int, rounds: nat): Outcome
    requires WellSubmitted(st, edges) && limit >= |QueuedIds(st)|
    decreases rounds
  {
    if rounds == 0 then Outcome(st, [])
    else
      RoundKeeps(st, edges, owner, limit);
      var rest := Drain(AfterRound(st, edges, owner, limit), edges, owner, limit, rounds - 1);
      Outcome(rest.st, Selected(st, edges, limit) + rest.order)
  }

  ghost function AfterRound(st: Store, edges: Edges, owner: Id, limit: int): Store
    requires ValidStore(st)
  {
    FinishAll(st, owner, Selected(st, edges, limit))
  }

  lemma RoundKeeps(st: Store, edges: Edges, owner: Id, limit: int)
    requires WellSubmitted(st, edges) && limit >= |QueuedIds(st)|
    ensures
      var next := AfterRound(st, edges, owner, limit);
      && WellSubmitted(next, edges) && |QueuedIds(next)| <= |QueuedIds(st)|
      && (QueuedOrDone(st) ==> QueuedOrDone(next) && (QueuedIds(st) == {} || |QueuedIds(next)| < |QueuedIds(st)|))
  {
    SelectedIffRunnable(st, edges, limit);
    FinishAllEffect(st, edges, owner, Selected(st, edges, limit));
    QueueShrinks(st, edges, owner, limit);
    if QueuedOrDone(st) && QueuedIds(st) != {} {
      SomethingIsSelected(st, edges, limit);
    }
  }

  lemma QueueShrinks(st: Store, edges: Edges, owner: Id, limit: int)
    requires WellSubmitted(st, edges) && limit >= |QueuedIds(st)|
    ensures
      var sel := Selected(st, edges, limit);
      && QueuedIds(FinishAll(st, owner, sel)) == QueuedIds(st) - Elems(sel)
      && Elems(sel) <= QueuedIds(st)
      && |QueuedIds(FinishAll(st, owner, sel))| == |QueuedIds(st)| - |sel|
  {
    var sel := Selected(st, edges, limit);
    SelectedIffRunnable(st, edges, limit);
    FinishAllEffect(st, edges, owner, sel);
    DistinctLength(sel);
    assert QueuedIds(FinishAll(st, owner, sel)) == QueuedIds(st) - Elems(sel);
  }

  /** Each dependency of a finished job had succeeded before or was finished earlier. */
  ghost predicate RespectsEdges(st: Store, edges: Edges, order: seq<Id>) {
    forall i, d :: 0 <= i < |order| && d in Deps(edges, order[i]) ==>
      HasStatus(st, d, Succeeded) || d in order[..i]
  }

  lemma ConcatRespectsEdges(st: Store, edges: Edges, sel: seq<Id>, next: Store, rest: seq<Id>)
    requires forall id :: id in sel ==> Runnable(edges, id, StatusesOf(st))
    requires forall d :: HasStatus(next, d, Succeeded) ==> HasStatus(st, d, Succeeded) || d in sel
    requires RespectsEdges(next, edges, rest)
    ensures RespectsEdges(st, edges, sel + rest)
  {
    var order := sel + rest;
    forall i, d | 0 <= i < |order| && d in Deps(edges, order[i])
      ensures HasStatus(st, d, Succeeded) || d in order[..i]
    {
      if i < |sel| {
        assert order[i] in sel;
        assert d in StatusesOf(st);
      } else {
        assert order[i] == rest[i - |sel|];
        assert order[..i] == sel + rest[..i - |sel|];
      }
    }
  }

  /** Every job has succeeded; the ones that were queued were finished once each, in order. */
  ghost predicate DrainedFrom(st: Store, edges: Edges, z: Outcome) {
    && z.st.jobs.Keys == st.jobs.Keys
    && (forall id :: id in st.jobs ==> z.st.jobs[id].status == Succeeded)
    && Distinct(z.order) && Elems(z.order) == QueuedIds(st)
    && RespectsEdges(st, edges, z.order)
  }

  /** How a round relates the stores around it. */
  ghost predicate IsRound(st: Store, edges: Edges, sel: seq<Id>, next: Store) {
    && next.jobs.Keys == st.jobs.Keys
    && (forall id :: id in sel ==> Runnable(edges, id, StatusesOf(st)))
    && (forall d :: HasStatus(next, d, Succeeded) ==> HasStatus(st, d, Succeeded) || d in sel)
    && Distinct(sel) && Elems(sel) <= QueuedIds(st) && QueuedIds(next) == QueuedIds(st) - Elems(sel)
  }

  lemma RoundsAreRounds(st: Store, edges: Edges, owner: Id, limit: int)
    requires WellSubmitted(st, edges) && limit >= |QueuedIds(st)|
    ensures IsRound(st, edges, Selected(st, edges, limit), AfterRound(st, edges, owner, limit))
  {
    SelectedIffRunnable(st, edges, limit);
    FinishAllEffect(st, edges, owner, Selected(st, edges, limit));
    QueueShrinks(st, edges, owner, limit);
  }

  lemma PrependRound(st: Store, edges: Edges, sel: seq<Id>, next: Store, z: Outcome)
    requires IsRound(st, edges, sel, next) && DrainedFrom(next, edges, z)
    ensures DrainedFrom(st, edges, Outcome(z.st, sel + z.order))
  {
    ConcatRespectsEdges(st, edges, sel, next, z.order);
    DistinctConcat(sel, z.order);
    assert Elems(sel + z.order) == Elems(sel) + Elems(z.order);
  }

  /** A drain of what a round leaves, after that round, is a drain. */
  lemma RoundThenDrain(st: Store, edges: Edges, owner: Id, limit: int, z: Outcome)
    requires WellSubmitted(st, edges) && limit >= |QueuedIds(st)|
    requires DrainedFrom(AfterRound(st, edges, owner, limit), edges, z)
    ensures DrainedFrom(st, edges, Outcome(z.st, Selected(st, edges, limit) + z.order))
  {
    RoundsAreRounds(st, edges, owner, limit);
    PrependRound(st, edges, Selected(st, edges, limit), AfterRound(st, edges, owner, limit), z);
  }

  lemma NothingQueued(st: Store, edges: Edges)
    requires QueuedOrDone(st) && QueuedIds(st) == {}
    ensures DrainedFrom(st, edges, Outcome(st, []))
  {
    forall id | id in st.jobs ensures st.jobs[id].status == Succeeded {
      assert id !in QueuedIds(st);
    }
  }

  /** Draining: with at least as many rounds as queued jobs, every job succeeds; each queued job
      is finished exactly once, after all its dependencies. */
  lemma {:induction false} RoundsFinishEverything(st: Store, edges: Edges, owner: Id, limit: int, rounds: nat)
    requires WellSubmitted(st, edges) && QueuedOrDone(st)
    requires limit >= |QueuedIds(st)| && rounds >= |QueuedIds(st)|
    ensures DrainedFrom(st, edges, Drain(st, edges, owner, limit, rounds))
    decreases rounds
  {
    if rounds == 0 {
      NothingQueued(st, edges);
    } else {
      RoundKeeps(st, edges, owner, limit);
      var next := AfterRound(st, edges, owner, limit);
      RoundsFinishEverything(next, edges, owner, limit, rounds - 1);
      RoundThenDrain(st, edges, owner, limit, Drain(next, edges, owner, limit, rounds - 1));
    }
  }

  /** From submit to success: after every history of `n` submits to an empty queue, `n` rounds
      finish every stored job, each once and after all its dependencies. */
  lemma SubmittedWorkFinishes(ttl: int, from: real, ops: seq<Submit>, owner: Id)
    requires IsHistory(ttl, true, EMPTY_QUEUE, from, ops) && NamesStored(ttl, EMPTY_QUEUE, ops)
    ensures
      var q := Replay(ttl, true, History(EMPTY_QUEUE, [], []), ops).q;
      && WellSubmitted(q.store, q.edges) && |QueuedIds(q.store)| <= |ops|
      && QueuedIds(q.store) == q.store.jobs.Keys
      && DrainedFrom(q.store, q.edges, Drain(q.store, q.edges, owner, |ops|, |ops|))
  {
    var h := History(EMPTY_QUEUE, [], []);
    EmptyIsWellSubmitted();
    HistoriesAreWellSubmitted(ttl, h, from, ops);
    var q := Replay(ttl, true, h, ops).q;
    assert QueuedIds(q.store) == q.store.jobs.Keys;
    assert |q.store.jobs.Keys| == |q.store.jobs|;
    RoundsFinishEverything(q.store, q.edges, owner, |ops|, |ops|);
  }

  lemma DistinctConcat<T>(a: seq<T>, b: seq<T>)
    requires Distinct(a) && Distinct(b) && Elems(a) !! Elems(b)
    ensures Distinct(a + b)
  {
    forall i, j | 0 <= i < j < |a + b| ensures (a + b)[i] != (a + b)[j] {
      if i < |a| <= j {
        assert a[i] in Elems(a) && b[j - |a|] in Elems(b);
      }
    }
  }

  /** For any limit, progress is exactly a runnable job among the jobs dequeued. */
  lemma SelectionNonEmptyIff(st: Store, edges: Edges, limit: int)
    requires WellSubmitted(st, edges)
    ensures Selected(st, edges, limit) != [] <==>
            exists id :: id in Dequeue(st, limit, None, None) && Runnable(edges, id, StatusesOf(st))
  {
    SelectedFromDequeued(st, edges, limit);
    var sel := Selected(st, edges, limit);
    if sel != [] {
      assert sel[0] in sel;
    }
  }

  const WAITING_HEAD := Store(map["a" := JobRec("t", "q", 0, 0, [], map[], None, Queued, None),
                                 "b" := JobRec("t", "q", 5, 1, ["a"], map[], None, Queued, None)],
                             ["a", "b"], [])

  /** A limit below the queue length can hide runnable work: with `limit = 1` the blocked job at
      the head leaves the selection empty although the other job could run. */
  lemma BlockedHeadHidesTheRest()
    ensures
      var edges: Edges := map["b" := ["a"]];
      WellSubmitted(WAITING_HEAD, edges) && QueuedOrDone(WAITING_HEAD)
      && Selected(WAITING_HEAD, edges, 1) == [] && Selected(WAITING_HEAD, edges, 2) != []
  {
    var edges: Edges := map["b" := ["a"]];
    WaitingHeadIsWellSubmitted();
    WaitingHeadRanking();
    assert "a" in Deps(edges, "b");
    SelectionNonEmptyIff(WAITING_HEAD, edges, 1);
    SubsetCardinality(QueuedIds(WAITING_HEAD), {"a", "b"});
    assert "a" in QueuedIds(WAITING_HEAD);
    SomethingIsSelected(WAITING_HEAD, edges, 2);
  }

  lemma WaitingHeadRanking()
    ensures Dequeue(WAITING_HEAD, 1, None, None) == ["b"]
  {
    var st := WAITING_HEAD;
    assert st.order[1..] == ["b"] && st.order[1..][1..] == [];
    var a, b := EntryOf(st, "a"), EntryOf(st, "b");
    var w := Wanted(st, st.order, None, None);
    assert w == [a, b];
    assert w[1..] == [b] && w[1..][1..] == [];
    assert SortBy(w[1..][1..], Precedes) == [];
    assert SortBy(w[1..], Precedes) == [b];
    assert [b][1..] == [];
    assert Insert(a, [b], Precedes) == [b] + Insert(a, [b][1..], Precedes);
    assert SortBy(w, Precedes) == Insert(a, [b], Precedes);
  }

  lemma WaitingHeadIsWellSubmitted()
    ensures WellSubmitted(WAITING_HEAD, map["b" := ["a"]])
  {
    assert Elems(WAITING_HEAD.order) == WAITING_HEAD.jobs.Keys;
    EmptyAcyclic();
    forall n: nat ensures !ReachIn(map[], "a", "b", n) {}
    assert WaitGraph(map[]) == map[];
    RegisterKeepsAcyclicIff(map[], "b", ["a"]);
  }
}
