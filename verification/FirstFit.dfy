/** The dispatcher's selection written out: which dequeued jobs it takes, told by the counters it
    starts from and the jobs' own records. */
module FirstFit {
  import opened Basics
  import opened JobStates
  import opened MemoryBackend
  import opened DependencyTracking
  import opened Dispatching
  import C = Concurrency
  import R = ResourcePools

  /** All registered dependencies have succeeded, for a job that names any. */
  ghost predicate DependenciesDone(g: Gates, st: Store, edges: Edges, id: Id)
    requires id in st.jobs
  {
    g.tracker && st.jobs[id].dependsOn != [] && id in edges ==>
      forall d :: d in edges[id] ==> d in st.jobs && st.jobs[d].status == Succeeded
  }

  /** One more job of the type stays below all four limits, after `sel` have been charged. */
  ghost predicate RoomForOneMore(l: C.Limits, c: C.Counters, st: Store, sel: seq<Id>, jobType: Id)
    requires AllStored(st, sel)
  {
    && c.global + |sel| < l.globalMax
    && Get(c.byType, jobType) + CountType(st, sel, jobType) < l.perTypeMax
    && Get(c.byTenant, "default") + |sel| < l.perTenantMax
    && Get(c.byUser, "default") + |sel| < l.perUserMax
  }

  /** What `sel` asked for and the request together pass the limit of some limited pool. */
  ghost predicate PassesALimit(limits: R.Slots, used: R.Slots, st: Store, sel: seq<Id>, req: R.Slots)
    requires AllStored(st, sel)
  {
    exists p :: p in req && p in limits && Get(used, p) + Demand(st, sel, p) + req[p] > limits[p]
  }

  /** A dequeued job is selected exactly when its dependencies have succeeded, the jobs selected
      before it leave room below every concurrency limit, and its request passes no pool's limit. */
  lemma FirstFitWrittenOut(g: Gates, st: Store, edges: Edges, s: SlotState, ids: seq<Id>, i: nat)
    requires AllStored(st, ids) && Distinct(ids) && i < |ids|
    ensures AllStored(st, ids[..i]) && ids[i] in st.jobs
    ensures AllStored(st, Greedy(g, st, edges, s, ids[..i]).ids)
    ensures
      var sel, rec := Greedy(g, st, edges, s, ids[..i]).ids, st.jobs[ids[i]];
      ids[i] in Greedy(g, st, edges, s, ids).ids <==>
        && DependenciesDone(g, st, edges, ids[i])
        && (g.concurrency.Some? ==> RoomForOneMore(g.concurrency.value, s.conc, st, sel, rec.jobType))
        && (g.pool.Some? ==> !PassesALimit(g.pool.value, s.pool.used, st, sel, rec.resources))
  {
    SelectedIff(g, st, edges, s, ids, i);
    GreedyAccounting(g, st, edges, s, ids[..i]);
    ReadyIffDone(g, st, edges, ids[i]);
    FitsWrittenOut(g, st, s, Greedy(g, st, edges, s, ids[..i]), st.jobs[ids[i]]);
  }

  lemma ReadyIffDone(g: Gates, st: Store, edges: Edges, id: Id)
    requires id in st.jobs
    ensures IsReady(g, st, edges, id) <==> DependenciesDone(g, st, edges, id)
  {
    if g.tracker && st.jobs[id].dependsOn != [] && id in edges {
      assert forall d :: d in edges[id] ==> (d in StatusesOf(st) <==> d in st.jobs);
    }
  }

  lemma FitsWrittenOut(g: Gates, st: Store, s: SlotState, r: Selection, rec: JobRec)
    requires AllStored(st, r.ids)
    requires g.concurrency.Some? ==> ConcurrencyRaised(st, s.conc, r.ids, r.slots.conc)
    requires g.pool.Some? ==> PoolRaised(st, s.pool, r.ids, r.slots.pool)
    ensures Fits(g, r.slots, rec) <==>
            && (g.concurrency.Some? ==> RoomForOneMore(g.concurrency.value, s.conc, st, r.ids, rec.jobType))
            && (g.pool.Some? ==> !PassesALimit(g.pool.value, s.pool.used, st, r.ids, rec.resources))
  {
    if g.pool.Some? {
      assert forall p :: Get(r.slots.pool.used, p) == Get(s.pool.used, p) + Demand(st, r.ids, p);
    }
  }

  /** A job whose dependencies are done, with room below the concurrency limits, that asks only for
      pools without a limit is always selected. */
  lemma UnlimitedIsSelected(g: Gates, st: Store, edges: Edges, s: SlotState, ids: seq<Id>, i: nat)
    requires AllStored(st, ids) && Distinct(ids) && i < |ids| && ids[i] in st.jobs
    requires AllStored(st, ids[..i]) && AllStored(st, Greedy(g, st, edges, s, ids[..i]).ids)
    requires DependenciesDone(g, st, edges, ids[i])
    requires g.concurrency.Some? ==>
               RoomForOneMore(g.concurrency.value, s.conc, st, Greedy(g, st, edges, s, ids[..i]).ids,
                              st.jobs[ids[i]].jobType)
    requires g.pool.Some? ==> st.jobs[ids[i]].resources.Keys !! g.pool.value.Keys
    ensures ids[i] in Greedy(g, st, edges, s, ids).ids
  {
    FirstFitWrittenOut(g, st, edges, s, ids, i);
  }
}
