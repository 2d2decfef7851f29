/** Selection of eligible jobs: dependencies first, then a concurrency slot, then resource slots,
    giving the concurrency slot back when the resources are not there. */
module Dispatching {
  import opened Basics
  import opened JobStates
  import opened MemoryBackend
  import opened DependencyTracking
  import C = Concurrency
  import R = ResourcePools

  /** Which checks are configured, and their limits. */
  datatype Gates = Gates(concurrency: Option<C.Limits>, pool: Option<R.Slots>, tracker: bool)

  datatype SlotState = SlotState(conc: C.Counters, pool: R.PoolState)

  datatype Admission = Admission(ok: bool, slots: SlotState)

  datatype Selection = Selection(ids: seq<Id>, slots: SlotState)

  /** The dispatcher names only the job type; tenant and user take their defaults. */
  function TicketFor(jobType: Id): C.Ticket {
    C.Ticket(jobType, "default", "default")
  }

  predicate IsReady(g: Gates, st: Store, edges: Edges, id: Id)
    requires id in st.jobs
  {
    g.tracker && st.jobs[id].dependsOn != [] ==> Runnable(edges, id, StatusesOf(st))
  }

  /** Both slot checks, with the rollback between them. */
  function Admit(g: Gates, s: SlotState, id: Id, rec: JobRec): Admission {
    var t := TicketFor(rec.jobType);
    if g.concurrency.Some? && !C.CanTake(g.concurrency.value, s.conc, t) then Admission(false, s)
    else
      var taken := if g.concurrency.Some? then C.Take(s.conc, t) else s.conc;
      if g.pool.Some? && rec.resources != map[] then
        if R.CanAcquire(g.pool.value, s.pool.used, rec.resources)
        then Admission(true, SlotState(taken, R.Grant(s.pool, id, rec.resources)))
        else Admission(false, SlotState(if g.concurrency.Some? then C.Give(taken, t) else taken, s.pool))
      else Admission(true, SlotState(taken, s.pool))
  }

  function GiveBack(g: Gates, s: SlotState, id: Id, jobType: Id): SlotState {
    SlotState(if g.concurrency.Some? then C.Give(s.conc, TicketFor(jobType)) else s.conc,
              if g.pool.Some? then R.Free(s.pool, id) else s.pool)
  }

  ghost predicate AllStored(st: Store, ids: seq<Id>) {
    forall id :: id in ids ==> id in st.jobs
  }

  /** The greedy pass over the dequeued jobs. */
  ghost function Greedy(g: Gates, st: Store, edges: Edges, s: SlotState, ids: seq<Id>): Selection
    requires AllStored(st, ids)
    decreases |ids|
  {
    if ids == [] then Selection([], s)
    else
      var id := ids[0];
      assert forall k :: k in ids[1..] ==> k in ids;
      if !IsReady(g, st, edges, id) then Greedy(g, st, edges, s, ids[1..])
      else
        var a := Admit(g, s, id, st.jobs[id]);
        var rest := Greedy(g, st, edges, a.slots, ids[1..]);
        if a.ok then Selection([id] + rest.ids, rest.slots) else rest
  }

  lemma DequeuedAreStored(st: Store, limit: int, queueName: Option<Id>)
    requires ValidStore(st)
    ensures AllStored(st, Dequeue(st, limit, None, queueName))
  {
    DequeueIsBestFirst(st, limit, None, queueName);
  }

  ghost function Select(g: Gates, st: Store, edges: Edges, s: SlotState, limit: int, queueName: Option<Id>): Selection
    requires ValidStore(st)
  {
    DequeuedAreStored(st, limit, queueName);
    Greedy(g, st, edges, s, Dequeue(st, limit, None, queueName))
  }

  lemma {:induction false} GreedyAppend(g: Gates, st: Store, edges: Edges, s: SlotState, a: seq<Id>, b: seq<Id>)
    requires AllStored(st, a) && AllStored(st, b) && AllStored(st, a + b)
    ensures
      var first := Greedy(g, st, edges, s, a);
      var second := Greedy(g, st, edges, first.slots, b);
      Greedy(g, st, edges, s, a + b) == Selection(first.ids + second.ids, second.slots)
    decreases |a|
  {
    if a == [] {
      assert a + b == b;
    } else {
      assert (a + b)[1..] == a[1..] + b;
      assert forall k :: k in a[1..] ==> k in a;
      assert a[0] in a;
      if !IsReady(g, st, edges, a[0]) {
        GreedyAppend(g, st, edges, s, a[1..], b);
      } else {
        var x := Admit(g, s, a[0], st.jobs[a[0]]);
        GreedyAppend(g, st, edges, x.slots, a[1..], b);
        var mid := Greedy(g, st, edges, x.slots, a[1..]);
        var second := Greedy(g, st, edges, mid.slots, b);
        assert [a[0]] + (mid.ids + second.ids) == ([a[0]] + mid.ids) + second.ids;
      }
    }
  }

  ghost function JobIds(js: seq<Job>): seq<Id> {
    seq(|js|, i requires 0 <= i < |js| => js[i].id)
  }

  /** The slots taken in an optional manager and an optional pool. */
  ghost function SlotsOf(concurrency: C.ConcurrencyManager?, pool: R.ResourcePool?): SlotState
    reads concurrency, pool
  {
    SlotState(if concurrency == null then C.NO_SLOTS else concurrency.State(),
              if pool == null then R.EMPTY_POOL else pool.State())
  }

  lemma SelectIsGreedy(g: Gates, st: Store, edges: Edges, s: SlotState, limit: int, queueName: Option<Id>, ids: seq<Id>)
    requires ValidStore(st) && ids == Dequeue(st, limit, None, queueName)
    ensures AllStored(st, ids) && Select(g, st, edges, s, limit, queueName) == Greedy(g, st, edges, s, ids)
  {
    DequeuedAreStored(st, limit, queueName);
  }

  /** The objects a dequeue returns are the stored jobs of the ids it specifies. */
  lemma DequeuedJobsMatch(backend: MemoryQueueBackend, jobs: seq<Job>, limit: int, queueName: Option<Id>)
    requires backend.Valid() && |jobs| == |Dequeue(backend.Contents(), limit, None, queueName)|
    requires forall i :: 0 <= i < |jobs| ==>
               jobs[i].id == Dequeue(backend.Contents(), limit, None, queueName)[i] && backend.Holds(jobs[i])
    ensures JobIds(jobs) == Dequeue(backend.Contents(), limit, None, queueName)
    ensures AllStored(backend.Contents(), JobIds(jobs))
    ensures forall i :: 0 <= i < |jobs| ==>
              jobs[i].id in backend.Contents().jobs && jobs[i].Rec() == backend.Contents().jobs[jobs[i].id]
    ensures forall job :: job in jobs ==> backend.Holds(job)
  {
    DequeuedAreStored(backend.Contents(), limit, queueName);
  }

  class Dispatcher {
    const backend: MemoryQueueBackend
    const concurrency: C.ConcurrencyManager?
    const pool: R.ResourcePool?
    const tracker: DependencyTracker?

    constructor (backend: MemoryQueueBackend, concurrency: C.ConcurrencyManager?, pool: R.ResourcePool?,
                 tracker: DependencyTracker?)
      ensures this.backend == backend && this.concurrency == concurrency
      ensures this.pool == pool && this.tracker == tracker
    {
      this.backend, this.concurrency, this.pool, this.tracker := backend, concurrency, pool, tracker;
    }

    ghost function GateView(): Gates {
      Gates(if concurrency == null then None else Some(concurrency.limits),
            if pool == null then None else Some(pool.limits),
            tracker != null)
    }

    ghost function SlotView(): SlotState
      reads concurrency, pool
    {
      SlotsOf(concurrency, pool)
    }

    ghost function EdgeView(): Edges
      reads tracker
    {
      EdgesOf(tracker)
    }

    /** One job through both slot checks. */
    method TryAdmit(job: Job) returns (ok: bool)
      modifies concurrency, pool
      ensures Admission(ok, SlotView()) == Admit(GateView(), old(SlotView()), job.id, job.Rec())
      ensures job.Rec() == old(job.Rec())
    {
      if concurrency != null {
        var taken := concurrency.Acquire(TicketFor(job.jobType));
        if !taken {
          return false;
        }
      }
      if pool != null && job.resources != map[] {
        var granted := pool.Acquire(job.id, job.resources);
        if !granted {
          if concurrency != null {
            concurrency.Release(TicketFor(job.jobType));
          }
          return false;
        }
      }
      return true;
    }

    /** The dependency check, then the slot checks. */
    method Consider(job: Job, statuses: Statuses) returns (ok: bool)
      modifies concurrency, pool
      ensures
        if tracker != null && job.dependsOn != [] && !Runnable(EdgeView(), job.id, statuses)
        then !ok && SlotView() == old(SlotView())
        else Admission(ok, SlotView()) == Admit(GateView(), old(SlotView()), job.id, old(job.Rec()))
    {
      if tracker != null && job.dependsOn != [] {
        var ready := tracker.IsRunnable(job.id, statuses);
        if !ready {
          return false;
        }
      }
      ok := TryAdmit(job);
    }

    /** The greedy loop over the dequeued jobs. */
    method SelectFrom(jobs: seq<Job>, statuses: Statuses, ghost st: Store) returns (selected: seq<Job>)
      requires statuses == StatusesOf(st)
      requires forall i :: 0 <= i < |jobs| ==> jobs[i].id in st.jobs && jobs[i].Rec() == st.jobs[jobs[i].id]
      modifies concurrency, pool
      ensures AllStored(st, JobIds(jobs))
      ensures Selection(JobIds(selected), SlotView()) ==
              Greedy(GateView(), st, EdgeView(), old(SlotView()), JobIds(jobs))
      ensures forall job :: job in selected ==> job in jobs
    {
      ghost var g, edges, ids := GateView(), EdgeView(), JobIds(jobs);
      selected := [];
      ghost var acc := Selection([], SlotView());
      assert ids[..0] == [];
      for i := 0 to |jobs|
        invariant AllStored(st, ids[..i])
        invariant acc == Greedy(g, st, edges, old(SlotView()), ids[..i])
        invariant acc == Selection(JobIds(selected), SlotView())
        invariant forall job :: job in selected ==> job in jobs
      {
        var job := jobs[i];
        StepOne(g, st, edges, old(SlotView()), ids, i);
        var ok := Consider(job, statuses);
        if ok {
          assert JobIds(selected + [job]) == JobIds(selected) + [job.id];
          selected := selected + [job];
        }
        acc := Greedy(g, st, edges, old(SlotView()), ids[..i + 1]);
      }
      assert ids[..|jobs|] == ids;
    }

    method SelectEligible(limit: int, queueName: Option<Id>) returns (selected: seq<Job>)
      requires backend.Valid()
      modifies concurrency, pool
      ensures Selection(JobIds(selected), SlotView()) ==
              Select(GateView(), old(backend.Contents()), EdgeView(), old(SlotView()), limit, queueName)
      ensures forall job :: job in selected ==> backend.Holds(job)
    {
      var jobs := backend.DequeueJobs(limit, None, queueName);
      DequeuedJobsMatch(backend, jobs, limit, queueName);
      var table := backend.jobs;
      var statuses := map id | id in table :: table[id].status;
      assert statuses == StatusesOf(backend.Contents());
      ghost var st, slots := backend.Contents(), SlotView();
      selected := SelectFrom(jobs, statuses, st);
      SelectIsGreedy(GateView(), st, EdgeView(), slots, limit, queueName, JobIds(jobs));
    }

    method ReleaseJob(job: Job)
      modifies concurrency, pool
      ensures SlotView() == GiveBack(GateView(), old(SlotView()), job.id, job.jobType)
    {
      if concurrency != null {
        concurrency.Release(TicketFor(job.jobType));
      }
      if pool != null {
        pool.Release(job.id);
      }
    }
  }

  /** One more dequeued job, seen from the end of the pass so far. */
  lemma StepOne(g: Gates, st: Store, edges: Edges, s: SlotState, ids: seq<Id>, i: nat)
    requires AllStored(st, ids) && i < |ids|
    ensures AllStored(st, ids[..i]) && AllStored(st, ids[..i + 1]) && ids[i] in st.jobs
    ensures
      var before, after := Greedy(g, st, edges, s, ids[..i]), Greedy(g, st, edges, s, ids[..i + 1]);
      var a := Admit(g, before.slots, ids[i], st.jobs[ids[i]]);
      if !IsReady(g, st, edges, ids[i]) then after == before
      else after == Selection(before.ids + (if a.ok then [ids[i]] else []), a.slots)
  {
    assert ids[..i + 1] == ids[..i] + [ids[i]];
    assert ids[i] in ids;
    assert forall k :: k in ids[..i + 1] ==> k in ids;
    GreedyAppend(g, st, edges, s, ids[..i], [ids[i]]);
    assert [ids[i]][1..] == [];
  }

  // ---- What a greedy pass guarantees ----

  /** The job would get through both slot checks now. */
  predicate Fits(g: Gates, s: SlotState, rec: JobRec) {
    && (g.concurrency.Some? ==> C.CanTake(g.concurrency.value, s.conc, TicketFor(rec.jobType)))
    && (g.pool.Some? && rec.resources != map[] ==> R.CanAcquire(g.pool.value, s.pool.used, rec.resources))
  }

  ghost predicate SameSlots(a: SlotState, b: SlotState) {
    C.SameState(a.conc, b.conc) && SameCounts(a.pool.used, b.pool.used) && a.pool.holders == b.pool.holders
  }

  ghost predicate Leq(a: map<Id, nat>, b: map<Id, nat>) {
    forall k :: Get(a, k) <= Get(b, k)
  }

  /** Every counter of `a` is at most that of `b`. */
  ghost predicate NoMoreThan(a: SlotState, b: SlotState) {
    && a.conc.global <= b.conc.global
    && Leq(a.conc.byType, b.conc.byType)
    && Leq(a.conc.byTenant, b.conc.byTenant)
    && Leq(a.conc.byUser, b.conc.byUser)
    && Leq(a.pool.used, b.pool.used)
  }

  /** A job is admitted exactly when it fits, and a refused job leaves no trace in any counter. */
  lemma AdmitIsExact(g: Gates, s: SlotState, id: Id, rec: JobRec)
    ensures Admit(g, s, id, rec).ok <==> Fits(g, s, rec)
    ensures !Fits(g, s, rec) ==> SameSlots(Admit(g, s, id, rec).slots, s)
    ensures NoMoreThan(s, Admit(g, s, id, rec).slots)
  {
  }

  lemma FitsAntitone(g: Gates, a: SlotState, b: SlotState, rec: JobRec)
    requires NoMoreThan(a, b) && Fits(g, b, rec)
    ensures Fits(g, a, rec)
  {
    var t := TicketFor(rec.jobType);
    assert Get(a.conc.byType, t.jobType) <= Get(b.conc.byType, t.jobType);
    forall p | p in rec.resources ensures Get(a.pool.used, p) <= Get(b.pool.used, p) {}
  }

  lemma {:induction false} GreedyOnlyAdds(g: Gates, st: Store, edges: Edges, s: SlotState, ids: seq<Id>)
    requires AllStored(st, ids)
    ensures NoMoreThan(s, Greedy(g, st, edges, s, ids).slots)
    decreases |ids|
  {
    if ids != [] {
      assert forall k :: k in ids[1..] ==> k in ids;
      if !IsReady(g, st, edges, ids[0]) {
        GreedyOnlyAdds(g, st, edges, s, ids[1..]);
      } else {
        AdmitIsExact(g, s, ids[0], st.jobs[ids[0]]);
        GreedyOnlyAdds(g, st, edges, Admit(g, s, ids[0], st.jobs[ids[0]]).slots, ids[1..]);
      }
    }
  }

  /** The selection is an order-preserving part of the dequeued jobs, all of them ready. */
  lemma {:induction false} GreedySelectsReady(g: Gates, st: Store, edges: Edges, s: SlotState, ids: seq<Id>)
    requires AllStored(st, ids)
    ensures IsSubsequence(Greedy(g, st, edges, s, ids).ids, ids)
    ensures forall id :: id in Greedy(g, st, edges, s, ids).ids ==> id in ids && IsReady(g, st, edges, id)
    decreases |ids|
  {
    if ids != [] {
      assert forall k :: k in ids[1..] ==> k in ids;
      var s1 := if IsReady(g, st, edges, ids[0]) then Admit(g, s, ids[0], st.jobs[ids[0]]).slots else s;
      GreedySelectsReady(g, st, edges, s1, ids[1..]);
      SubsequenceSkips(Greedy(g, st, edges, s1, ids[1..]).ids, ids[1..], ids[0]);
    }
  }

  lemma {:induction false} SubsequenceTail<T>(s: seq<T>, t: seq<T>)
    requires s != [] && IsSubsequence(s, t)
    ensures IsSubsequence(s[1..], t)
    decreases |t|, 0
  {
    if s[0] == t[0] {
      SubsequenceSkips(s[1..], t[1..], t[0]);
      assert [t[0]] + t[1..] == t;
    } else {
      SubsequenceTail(s, t[1..]);
      SubsequenceSkips(s[1..], t[1..], t[0]);
      assert [t[0]] + t[1..] == t;
    }
  }

  lemma {:induction false} SubsequenceSkips<T>(s: seq<T>, t: seq<T>, x: T)
    requires IsSubsequence(s, t)
    ensures IsSubsequence(s, [x] + t)
    ensures IsSubsequence([x] + s, [x] + t)
    decreases |t|, 1
  {
    assert ([x] + t)[1..] == t;
    assert ([x] + s)[1..] == s;
    if s != [] && s[0] == x {
      SubsequenceTail(s, t);
    }
  }

  /** First fit: a dequeued job is selected exactly when it is ready and fits what the
      selections before it left over. */
  lemma SelectedIff(g: Gates, st: Store, edges: Edges, s: SlotState, ids: seq<Id>, i: nat)
    requires AllStored(st, ids) && Distinct(ids) && i < |ids|
    ensures AllStored(st, ids[..i]) && ids[i] in st.jobs
    ensures ids[i] in Greedy(g, st, edges, s, ids).ids <==>
            IsReady(g, st, edges, ids[i]) && Fits(g, Greedy(g, st, edges, s, ids[..i]).slots, st.jobs[ids[i]])
  {
    StepOne(g, st, edges, s, ids, i);
    var before, upTo := Greedy(g, st, edges, s, ids[..i]), Greedy(g, st, edges, s, ids[..i + 1]);
    AdmitIsExact(g, before.slots, ids[i], st.jobs[ids[i]]);
    var later := ids[i + 1..];
    assert ids == ids[..i + 1] + later;
    assert forall k :: k in later ==> k in ids;
    GreedyAppend(g, st, edges, s, ids[..i + 1], later);
    GreedySelectsReady(g, st, edges, s, ids[..i]);
    GreedySelectsReady(g, st, edges, upTo.slots, later);
    assert ids[i] !in ids[..i] && ids[i] !in later;
  }

  /** Maximal: no ready job that was passed over would fit the slots left at the end. */
  lemma GreedyIsMaximal(g: Gates, st: Store, edges: Edges, s: SlotState, ids: seq<Id>, id: Id)
    requires AllStored(st, ids) && Distinct(ids)
    requires id in ids && id !in Greedy(g, st, edges, s, ids).ids && IsReady(g, st, edges, id)
    ensures !Fits(g, Greedy(g, st, edges, s, ids).slots, st.jobs[id])
  {
    var i :| 0 <= i < |ids| && ids[i] == id;
    SelectedIff(g, st, edges, s, ids, i);
    assert ids == ids[..i] + ids[i..];
    assert forall k :: k in ids[i..] ==> k in ids;
    GreedyAppend(g, st, edges, s, ids[..i], ids[i..]);
    GreedyOnlyAdds(g, st, edges, Greedy(g, st, edges, s, ids[..i]).slots, ids[i..]);
    if Fits(g, Greedy(g, st, edges, s, ids).slots, st.jobs[id]) {
      FitsAntitone(g, Greedy(g, st, edges, s, ids[..i]).slots, Greedy(g, st, edges, s, ids).slots, st.jobs[id]);
    }
  }

  // ---- Exact accounting ----

  ghost function CountType(st: Store, ids: seq<Id>, k: Id): nat
    requires AllStored(st, ids)
  {
    if ids == [] then 0
    else
      assert ids[0] in ids && forall j :: j in ids[1..] ==> j in ids;
      (if st.jobs[ids[0]].jobType == k then 1 else 0) + CountType(st, ids[1..], k)
  }

  ghost function Demand(st: Store, ids: seq<Id>, p: Id): nat
    requires AllStored(st, ids)
  {
    if ids == [] then 0
    else
      assert ids[0] in ids && forall j :: j in ids[1..] ==> j in ids;
      Get(st.jobs[ids[0]].resources, p) + Demand(st, ids[1..], p)
  }

  ghost predicate ConcurrencyRaised(st: Store, c: C.Counters, ids: seq<Id>, c': C.Counters)
    requires AllStored(st, ids)
  {
    && c'.global == c.global + |ids|
    && (forall k :: Get(c'.byType, k) == Get(c.byType, k) + CountType(st, ids, k))
    && (forall k :: Get(c'.byTenant, k) == Get(c.byTenant, k) + if k == "default" then |ids| else 0)
    && (forall k :: Get(c'.byUser, k) == Get(c.byUser, k) + if k == "default" then |ids| else 0)
  }

  ghost predicate PoolRaised(st: Store, s: R.PoolState, ids: seq<Id>, s': R.PoolState)
    requires AllStored(st, ids)
  {
    && (forall p :: Get(s'.used, p) == Get(s.used, p) + Demand(st, ids, p))
    && (forall id :: id in s'.holders <==> id in s.holders || (id in ids && st.jobs[id].resources != map[]))
    && (forall id :: id in s'.holders ==>
          s'.holders[id] ==
          if id in ids && st.jobs[id].resources != map[] then st.jobs[id].resources else s.holders[id])
  }

  lemma SelectedAreStored(g: Gates, st: Store, edges: Edges, s: SlotState, ids: seq<Id>)
    requires AllStored(st, ids)
    ensures AllStored(st, Greedy(g, st, edges, s, ids).ids)
  {
    GreedySelectsReady(g, st, edges, s, ids);
  }

  lemma {:induction false} GreedyConcurrency(g: Gates, st: Store, edges: Edges, s: SlotState, ids: seq<Id>)
    requires AllStored(st, ids) && AllStored(st, Greedy(g, st, edges, s, ids).ids)
    ensures
      var r := Greedy(g, st, edges, s, ids);
      if g.concurrency.Some? then ConcurrencyRaised(st, s.conc, r.ids, r.slots.conc) else r.slots.conc == s.conc
    decreases |ids|
  {
    if ids != [] {
      assert forall k :: k in ids[1..] ==> k in ids;
      var id := ids[0];
      var ready := IsReady(g, st, edges, id);
      var a := if ready then Admit(g, s, id, st.jobs[id]) else Admission(false, s);
      SelectedAreStored(g, st, edges, a.slots, ids[1..]);
      GreedyConcurrency(g, st, edges, a.slots, ids[1..]);
      var rest := Greedy(g, st, edges, a.slots, ids[1..]);
      assert ([id] + rest.ids)[1..] == rest.ids;
      if ready && g.concurrency.Some? {
        AdmitIsExact(g, s, id, st.jobs[id]);
        if a.ok {
          ConcurrencyRaisedStep(st, s.conc, id, a.slots.conc, rest.ids, rest.slots.conc);
        } else {
          ConcurrencyRaisedSame(st, s.conc, a.slots.conc, rest.ids, rest.slots.conc);
        }
      }
    }
  }

  lemma ConcurrencyRaisedStep(st: Store, c: C.Counters, id: Id, mid: C.Counters, ids: seq<Id>, z: C.Counters)
    requires AllStored(st, [id] + ids) && AllStored(st, ids) && id in st.jobs
    requires mid == C.Take(c, TicketFor(st.jobs[id].jobType)) && ConcurrencyRaised(st, mid, ids, z)
    ensures ConcurrencyRaised(st, c, [id] + ids, z)
  {
    assert ([id] + ids)[1..] == ids;
  }

  lemma ConcurrencyRaisedSame(st: Store, c: C.Counters, mid: C.Counters, ids: seq<Id>, z: C.Counters)
    requires AllStored(st, ids) && C.SameState(mid, c) && ConcurrencyRaised(st, mid, ids, z)
    ensures ConcurrencyRaised(st, c, ids, z)
  {
  }

  lemma {:induction false} GreedyPool(g: Gates, st: Store, edges: Edges, s: SlotState, ids: seq<Id>)
    requires AllStored(st, ids) && AllStored(st, Greedy(g, st, edges, s, ids).ids)
    ensures
      var r := Greedy(g, st, edges, s, ids);
      if g.pool.Some? then PoolRaised(st, s.pool, r.ids, r.slots.pool) else r.slots.pool == s.pool
    decreases |ids|
  {
    if ids != [] {
      assert forall k :: k in ids[1..] ==> k in ids;
      var id := ids[0];
      var ready := IsReady(g, st, edges, id);
      var a := if ready then Admit(g, s, id, st.jobs[id]) else Admission(false, s);
      SelectedAreStored(g, st, edges, a.slots, ids[1..]);
      GreedyPool(g, st, edges, a.slots, ids[1..]);
      var rest := Greedy(g, st, edges, a.slots, ids[1..]);
      assert ([id] + rest.ids)[1..] == rest.ids;
      if ready && g.pool.Some? {
        assert a.slots.pool == if a.ok then R.Grant(s.pool, id, st.jobs[id].resources) else s.pool;
        if a.ok {
          PoolRaisedStep(st, s.pool, id, a.slots.pool, rest.ids, rest.slots.pool);
        }
      }
    }
  }

  lemma PoolRaisedStep(st: Store, s: R.PoolState, id: Id, mid: R.PoolState, ids: seq<Id>, z: R.PoolState)
    requires AllStored(st, [id] + ids) && AllStored(st, ids) && id in st.jobs
    requires mid == R.Grant(s, id, st.jobs[id].resources) && PoolRaised(st, mid, ids, z)
    ensures PoolRaised(st, s, [id] + ids, z)
  {
    assert ([id] + ids)[1..] == ids;
  }

  /** The counters rise by exactly the selected jobs' needs: rolled-back attempts leave nothing,
      and the new holders are the selected jobs that asked for resources. */
  lemma GreedyAccounting(g: Gates, st: Store, edges: Edges, s: SlotState, ids: seq<Id>)
    requires AllStored(st, ids)
    ensures AllStored(st, Greedy(g, st, edges, s, ids).ids)
    ensures
      var r := Greedy(g, st, edges, s, ids);
      && (if g.concurrency.Some? then ConcurrencyRaised(st, s.conc, r.ids, r.slots.conc) else r.slots.conc == s.conc)
      && (if g.pool.Some? then PoolRaised(st, s.pool, r.ids, r.slots.pool) else r.slots.pool == s.pool)
  {
    SelectedAreStored(g, st, edges, s, ids);
    GreedyConcurrency(g, st, edges, s, ids);
    GreedyPool(g, st, edges, s, ids);
  }

  // ---- The books stay right across a pass ----

  ghost predicate NoneHolds(s: SlotState, ids: seq<Id>) {
    forall id :: id in ids ==> id !in s.pool.holders
  }

  /** When no dequeued id already holds slots, the pool's used counts are still exactly what its
      holders hold, and within the limits. */
  lemma {:induction false} GreedyKeepsPoolBooks(g: Gates, st: Store, edges: Edges, s: SlotState, ids: seq<Id>)
    requires AllStored(st, ids) && Distinct(ids) && NoneHolds(s, ids)
    requires R.Conserved(s.pool) && (g.pool.Some? ==> R.WithinLimits(g.pool.value, s.pool))
    ensures
      var z := Greedy(g, st, edges, s, ids).slots;
      R.Conserved(z.pool) && (g.pool.Some? ==> R.WithinLimits(g.pool.value, z.pool))
    decreases |ids|
  {
    if ids != [] {
      var id := ids[0];
      assert forall k :: k in ids[1..] ==> k in ids && k != id;
      var a := if IsReady(g, st, edges, id) then Admit(g, s, id, st.jobs[id]) else Admission(false, s);
      if a.slots.pool != s.pool {
        R.GrantConservesIff(s.pool, id, st.jobs[id].resources);
      }
      GreedyKeepsPoolBooks(g, st, edges, a.slots, ids[1..]);
    }
  }

  function Tickets(st: Store, ids: seq<Id>): seq<C.Ticket>
    requires AllStored(st, ids)
  {
    seq(|ids|, i requires 0 <= i < |ids| => assert ids[i] in ids; TicketFor(st.jobs[ids[i]].jobType))
  }

  lemma SameStateAccounts(a: C.Counters, b: C.Counters, out: seq<C.Ticket>)
    requires C.SameState(a, b) && C.Accounts(b, out)
    ensures C.Accounts(a, out)
  {
  }

  lemma TicketsOfMore(st: Store, id: Id, rest: seq<Id>, out: seq<C.Ticket>)
    requires AllStored(st, [id] + rest) && AllStored(st, rest) && id in st.jobs
    ensures out + Tickets(st, [id] + rest) == out + [TicketFor(st.jobs[id].jobType)] + Tickets(st, rest)
  {
    assert Tickets(st, [id] + rest) == [TicketFor(st.jobs[id].jobType)] + Tickets(st, rest);
  }

  lemma AdmitKeepsTickets(g: Gates, s: SlotState, id: Id, rec: JobRec, out: seq<C.Ticket>)
    requires g.concurrency.Some? && C.Accounts(s.conc, out)
    ensures
      var a := Admit(g, s, id, rec);
      C.Accounts(a.slots.conc, if a.ok then out + [TicketFor(rec.jobType)] else out)
  {
    var a := Admit(g, s, id, rec);
    if a.ok {
      C.TakeAccounts(s.conc, out, TicketFor(rec.jobType));
    } else {
      AdmitIsExact(g, s, id, rec);
      SameStateAccounts(a.slots.conc, s.conc, out);
    }
  }

  /** The concurrency counters account for the tickets outstanding before plus one per selected job. */
  lemma {:induction false} GreedyKeepsTickets(g: Gates, st: Store, edges: Edges, s: SlotState, ids: seq<Id>,
                                              out: seq<C.Ticket>)
    requires AllStored(st, ids) && g.concurrency.Some? && C.Accounts(s.conc, out)
    ensures AllStored(st, Greedy(g, st, edges, s, ids).ids)
    ensures
      var z := Greedy(g, st, edges, s, ids);
      C.Accounts(z.slots.conc, out + Tickets(st, z.ids))
    decreases |ids|
  {
    SelectedAreStored(g, st, edges, s, ids);
    if ids == [] {
      assert out + [] == out;
    } else {
      var id := ids[0];
      assert forall k :: k in ids[1..] ==> k in ids;
      if !IsReady(g, st, edges, id) {
        GreedyKeepsTickets(g, st, edges, s, ids[1..], out);
      } else {
        var a, t := Admit(g, s, id, st.jobs[id]), TicketFor(st.jobs[id].jobType);
        var out1 := if a.ok then out + [t] else out;
        AdmitKeepsTickets(g, s, id, st.jobs[id], out);
        GreedyKeepsTickets(g, st, edges, a.slots, ids[1..], out1);
        var rest := Greedy(g, st, edges, a.slots, ids[1..]).ids;
        if a.ok {
          TicketsOfMore(st, id, rest, out);
        }
      }
    }
  }
}
